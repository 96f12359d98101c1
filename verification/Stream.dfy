/** One end of a byte stream, `read_frame` of `wire.rs`, and the handshakes of `room.rs`, `hub.rs` and
    `joiner.rs` run on it. The transport may cut the bytes into any pieces; every contract below speaks
    only of their concatenation, of how the stream ends and of how the writes fare. */
module Stream {
  import opened Basics
  import opened Codecs
  import Json
  import Wire

  const HANDSHAKE_LEN := 32

  /** What comes after the last byte: the peer has closed, reading fails, or nothing more comes within
      the time limit. */
  datatype Ending = Closed | Faulty | Silent

  /** How a write or flush fares: it works, or fails or exceeds the time limit after so many bytes. A
      write without a limit that stalls counts as failed. */
  datatype Fare = Works | Breaks(count: nat) | Stalls(count: nat)

  /** The fare of the next write or flush, and those after it. */
  function Next(fares: seq<Fare>): Fare { if fares == [] then Works else fares[0] }

  function Later(fares: seq<Fare>): seq<Fare> { if fares == [] then [] else fares[1..] }

  /** What gets out of `bs`. */
  function Passed(bs: Bytes, fare: Fare): Bytes {
    if fare.Works? || fare.count >= |bs| then bs else bs[..fare.count]
  }

  function Named(fare: Fare, what: string): ChatError {
    Connection(if fare.Stalls? then what + " timed out" else what)
  }

  /** What goes wrong in a write and its flush. */
  function PutFault(fares: seq<Fare>, what: string): Option<ChatError> {
    if !Next(fares).Works? then Some(Named(Next(fares), what + " write"))
    else if !Next(Later(fares)).Works? then Some(Named(Next(Later(fares)), what + " flush"))
    else None
  }

  datatype ReadResult = Got(bytes: Bytes) | Ended(ending: Ending)

  /** `incoming` holds the bytes still to arrive, in the pieces the transport will deliver, and `ending`
      what comes after them. `sent` is what has been written to the peer, and `fares` how the next writes
      and flushes will go. */
  class ByteStream {
    var incoming: seq<Bytes>
    const ending: Ending
    var fares: seq<Fare>
    var sent: Bytes

    ghost predicate Valid()
      reads this
    {
      forall i :: 0 <= i < |incoming| ==> incoming[i] != []
    }

    ghost function Contents(): Bytes
      reads this
    {
      Concat(incoming)
    }

    constructor (pieces: seq<Bytes>, ending: Ending, fares: seq<Fare>)
      requires forall i :: 0 <= i < |pieces| ==> pieces[i] != []
      ensures Valid() && Contents() == Concat(pieces) && sent == []
      ensures this.ending == ending && this.fares == fares
    {
      incoming, sent := pieces, [];
      this.ending, this.fares := ending, fares;
    }

    /** One read into a buffer with `room` free bytes: some bytes of the next piece, or how it ends. */
    method Read(room: nat) returns (r: ReadResult)
      requires Valid() && room > 0
      modifies this`incoming
      ensures Valid()
      ensures match r
              case Got(got) => got != [] && old(Contents()) == got + Contents() && |got| <= room
              case Ended(e) => e == ending && old(Contents()) == [] && Contents() == []
    {
      if incoming == [] {
        return Ended(ending);
      }
      var piece := incoming[0];
      if |piece| <= room {
        r, incoming := Got(piece), incoming[1..];
      } else {
        r := Got(piece[..room]);
        incoming := [piece[room..]] + incoming[1..];
        assert piece == piece[..room] + piece[room..];
        assert incoming[1..] == old(incoming)[1..];
      }
    }

    /** One write. */
    method Write(bs: Bytes) returns (fare: Fare)
      modifies this`sent, this`fares
      ensures fare == Next(old(fares)) && fares == Later(old(fares)) && sent == old(sent) + Passed(bs, fare)
      ensures fare.Works? ==> sent == old(sent) + bs
    {
      fare, fares := Next(fares), Later(fares);
      sent := sent + Passed(bs, fare);
    }

    method Flush() returns (fare: Fare)
      modifies this`sent, this`fares
      ensures fare == Next(old(fares)) && fares == Later(old(fares)) && sent == old(sent)
    {
      fare := Write([]);
    }

    /** Writes and flushes within the time limits; `what` names the errors. */
    method Put(bs: Bytes, what: string) returns (fault: Option<ChatError>)
      modifies this`sent, this`fares
      ensures fault == PutFault(old(fares), what) && sent == old(sent) + Passed(bs, Next(old(fares)))
      ensures fault.None? ==> sent == old(sent) + bs && fares == Later(Later(old(fares)))
    {
      var fare := Write(bs);
      if !fare.Works? {
        return Some(Named(fare, what + " write"));
      }
      fare := Flush();
      if !fare.Works? {
        return Some(Named(fare, what + " flush"));
      }
      fault := None;
    }

    /** Fills a buffer of `n` bytes, or fails having used up the stream; then its `ending` is why. */
    method ReadExact(n: nat) returns (r: Option<Bytes>)
      requires Valid()
      modifies this`incoming
      ensures Valid()
      ensures if |old(Contents())| < n then r == None && Contents() == []
              else r == Some(old(Contents())[..n]) && Contents() == old(Contents())[n..]
    {
      var buf: Bytes := [];
      while |buf| < n
        invariant Valid() && |buf| <= n && old(Contents()) == buf + Contents()
        decreases n - |buf|
      {
        var read := Read(n - |buf|);
        if read.Ended? {
          return None;
        }
        buf := buf + read.bytes;
      }
      r := Some(buf);
    }

    /** `read_frame`: the header, its checks, the payload, the UTF-8 check. A short read comes to nothing
        but the time limit around it if the stream ends `Silent`. */
    method ReadFrame() returns (r: Result<Bytes, ChatError>)
      requires Valid()
      modifies this`incoming
      ensures Valid() && Wire.Taken(r, Contents()) == Wire.TakeFrame(old(Contents()))
    {
      var header := ReadExact(4);
      if header.None? {
        return Err(WireFault(HeaderRead));
      }
      var n := Wire.FromBigEndian32(header.value);
      if n == 0 {
        return Err(WireFault(ZeroLength));
      }
      if n > Wire.MAX_PAYLOAD_BYTES {
        return Err(OversizedMessage(n, Wire.MAX_PAYLOAD_BYTES));
      }
      ghost var all := old(Contents());
      var payload := ReadExact(n);
      if payload.None? {
        return Err(WireFault(PayloadRead));
      }
      assert all[4..][..n] == all[4..4 + n] && all[4..][n..] == all[4 + n..];
      if Wire.Utf8.Decode(payload.value).None? {
        return Err(WireFault(PayloadNotUtf8));
      }
      assert all[..4 + n] == header.value + payload.value;
      r := Ok(header.value + payload.value);
    }

    /** The reader loops: frames until the first error or until nothing more comes in time. */
    method ReadFrames() returns (frames: seq<Bytes>, stop: ChatError)
      requires Valid()
      modifies this`incoming
      ensures Valid() && Wire.Reading(frames, stop) == Wire.TakeAll(old(Contents()))
    {
      hide Wire.TakeFrame, Wire.TakeAll, Concat;
      frames := [];
      while true
        invariant Valid()
        invariant Wire.TakeAll(old(Contents()))
               == Wire.Reading(frames + Wire.TakeAll(Contents()).frames, Wire.TakeAll(Contents()).stop)
        decreases |Contents()|
      {
        ghost var before := Contents();
        var r := ReadFrame();
        Unrolled(before);
        if r.Err? {
          assert frames + [] == frames;
          return frames, r.error;
        }
        assert frames + ([r.value] + Wire.TakeAll(Contents()).frames)
            == frames + [r.value] + Wire.TakeAll(Contents()).frames;
        frames := frames + [r.value];
      }
    }
  }

  lemma Unrolled(bs: Bytes)
    ensures match Wire.TakeFrame(bs).result
            case Err(e) => Wire.TakeAll(bs) == Wire.Reading([], e)
            case Ok(f) =>
              && Wire.TakeAll(bs) == Wire.Reading([f] + Wire.TakeAll(Wire.TakeFrame(bs).rest).frames,
                                                  Wire.TakeAll(Wire.TakeFrame(bs).rest).stop)
              && |Wire.TakeFrame(bs).rest| < |bs|
  {
  }

  predicate ShortRead(e: ChatError) { e == WireFault(HeaderRead) || e == WireFault(PayloadRead) }

  // ---- hub handshakes ----

  /** Whom a handshake admits, the byte it answers with, the nonces used up afterwards, and the bytes
      it leaves unread. */
  datatype Verdict = Verdict(peer: Result<(string, string), ChatError>, answer: Bytes, used: set<Bytes>, rest: Bytes)

  /** `Hub::handshake`: nonce and discriminator, nothing else read. The name is made up from the
      discriminator. */
  function HubOutcome(bs: Bytes, ending: Ending, fares: seq<Fare>, used: set<Bytes>): Verdict {
    if |bs| < HANDSHAKE_LEN then
      match ending
      case Closed => Verdict(Err(InvalidInvite(HandshakeEof)), Passed([1], Next(fares)), used, [])
      case Faulty => Verdict(Err(Connection("handshake read")), [], used, [])
      case Silent => Verdict(Err(Connection("handshake timed out")), [], used, [])
    else
      var nonce, disc := bs[..16], bs[16..32];
      if nonce in used then Verdict(Err(NonceReused), Passed([1], Next(fares)), used, bs[32..])
      else match PutFault(fares, "handshake")
        case Some(e) => Verdict(Err(e), Passed([0], Next(fares)), used + {nonce}, bs[32..])
        case None => Verdict(Ok((ToBase58(disc), "peer-" + ToHex(disc[..4]))), [0], used + {nonce}, bs[32..])
  }

  /** `hub_handshake`: as above, then the name is the text of the next frame. Nothing is answered when
      the stream ends early; the nonce stays used when the name cannot be read. */
  function RoomOutcome(bs: Bytes, ending: Ending, fares: seq<Fare>, used: set<Bytes>): Verdict {
    if |bs| < HANDSHAKE_LEN then
      Verdict(Err(Connection(if ending.Silent? then "handshake timed out" else "handshake read")), [], used, [])
    else
      var nonce, disc := bs[..16], bs[16..32];
      if nonce in used then Verdict(Err(NonceReused), Passed([1], Next(fares)), used, bs[32..])
      else match PutFault(fares, "handshake")
        case Some(e) => Verdict(Err(e), Passed([0], Next(fares)), used + {nonce}, bs[32..])
        case None =>
          var t := Wire.TakeFrame(bs[32..]);
          Verdict(NameOutcome(t.result, disc, ending), [0], used + {nonce}, t.rest)
  }

  function NameOutcome(frame: Result<Bytes, ChatError>, disc: Bytes, ending: Ending)
    : Result<(string, string), ChatError>
  {
    match frame
    case Err(e) =>
      Err(Connection(if ending.Silent? && ShortRead(e) then "handshake name read timed out" else "handshake name read"))
    case Ok(f) =>
      match Wire.DecodeMessage(f)
      case Err(_) => Err(Connection("handshake name decode"))
      case Ok(m) => Ok((ToBase58(disc), m.text))
  }

  /** The room's handshake when nothing goes wrong but what the peer sends. */
  function RoomVerdict(bs: Bytes, used: set<Bytes>): Verdict { RoomOutcome(bs, Closed, [], used) }

  /** The chunked read loop of `Hub::handshake`, filling a 32-byte array in place. It never reads past
      the 32 bytes, and its outcome is a function of the concatenated bytes and of how they end. */
  method FillHello(stream: ByteStream, buf: array<Byte>) returns (short: Option<Ending>)
    requires stream.Valid() && buf.Length == HANDSHAKE_LEN
    modifies stream`incoming, buf
    ensures stream.Valid()
    ensures short == if |old(stream.Contents())| >= HANDSHAKE_LEN then None else Some(stream.ending)
    ensures short.None? ==> old(stream.Contents()) == buf[..] + stream.Contents()
    ensures short.Some? ==> stream.Contents() == []
  {
    var pos := 0;
    ghost var all := stream.Contents();
    while pos < HANDSHAKE_LEN
      invariant pos <= HANDSHAKE_LEN && stream.Valid()
      invariant all == buf[..pos] + stream.Contents()
      decreases HANDSHAKE_LEN - pos
    {
      hide Concat;
      var read := stream.Read(HANDSHAKE_LEN - pos);
      if read.Ended? {
        return Some(read.ending);
      }
      var got := read.bytes;
      ghost var head := buf[..pos];
      forall i | 0 <= i < |got| {
        buf[pos + i] := got[i];
      }
      assert buf[..pos + |got|] == head + got;
      pos := pos + |got|;
    }
    assert buf[..] == buf[..pos];
    short := None;
  }

  /** `Hub::handshake`. */
  method HubHandshake(stream: ByteStream, used: set<Bytes>)
    returns (peer: Result<(string, string), ChatError>, used': set<Bytes>)
    requires stream.Valid() && stream.sent == []
    modifies stream
    ensures stream.Valid()
    ensures Verdict(peer, stream.sent, used', stream.Contents())
         == HubOutcome(old(stream.Contents()), stream.ending, old(stream.fares), used)
  {
    hide ToBase58, ToHex, PutFault;
    var buf := new Byte[HANDSHAKE_LEN](_ => 0);
    ghost var all := stream.Contents();
    var short := FillHello(stream, buf);
    match short {
      case Some(Closed) =>
        var fare := stream.Write([1]);
        assert stream.sent == Passed([1], fare);
        return Err(InvalidInvite(HandshakeEof)), used;
      case Some(Faulty) => return Err(Connection("handshake read")), used;
      case Some(Silent) => return Err(Connection("handshake timed out")), used;
      case None =>
    }
    var nonce, disc := buf[..16], buf[16..32];
    assert nonce == all[..16] && disc == all[16..32] && all[32..] == stream.Contents();
    if nonce in used {
      var fare := stream.Write([1]);
      assert stream.sent == Passed([1], fare);
      return Err(NonceReused), used;
    }
    used' := used + {nonce};
    var fault := stream.Put([0], "handshake");
    match fault
    case Some(e) => peer := Err(e);
    case None => peer := Ok((ToBase58(disc), "peer-" + ToHex(disc[..4])));
  }

  /** `hub_handshake` of `room.rs`. */
  method RoomHandshake(stream: ByteStream, used: set<Bytes>)
    returns (peer: Result<(string, string), ChatError>, used': set<Bytes>)
    requires stream.Valid() && stream.sent == []
    modifies stream
    ensures stream.Valid()
    ensures Verdict(peer, stream.sent, used', stream.Contents())
         == RoomOutcome(old(stream.Contents()), stream.ending, old(stream.fares), used)
  {
    hide ToBase58, PutFault, Wire.TakeFrame, Wire.DecodeMessage;
    ghost var all := stream.Contents();
    var buf := stream.ReadExact(HANDSHAKE_LEN);
    if buf.None? {
      return Err(Connection(if stream.ending.Silent? then "handshake timed out" else "handshake read")), used;
    }
    var nonce, disc := buf.value[..16], buf.value[16..32];
    assert nonce == all[..16] && disc == all[16..32];
    if nonce in used {
      var fare := stream.Write([1]);
      assert stream.sent == Passed([1], fare);
      return Err(NonceReused), used;
    }
    used' := used + {nonce};
    var fault := stream.Put([0], "handshake");
    if fault.Some? {
      return Err(fault.value), used';
    }
    var frame := stream.ReadFrame();
    match frame
    case Err(e) =>
      peer := Err(Connection(
        if stream.ending.Silent? && ShortRead(e) then "handshake name read timed out" else "handshake name read"));
    case Ok(f) =>
      match Wire.DecodeMessage(f)
      case Err(_) => peer := Err(Connection("handshake name decode"));
      case Ok(m) => peer := Ok((ToBase58(disc), m.text));
  }

  // ---- what the handshakes promise ----

  /** One handshake of either hub. */
  datatype Call = Call(room: bool, bytes: Bytes, ending: Ending, fares: seq<Fare>)

  function OutcomeOf(call: Call, used: set<Bytes>): Verdict {
    if call.room then RoomOutcome(call.bytes, call.ending, call.fares, used)
    else HubOutcome(call.bytes, call.ending, call.fares, used)
  }

  /** The nonces used up by handshakes one after the other. */
  function UsedAfter(calls: seq<Call>, used: set<Bytes>): set<Bytes> {
    if calls == [] then used
    else OutcomeOf(calls[|calls| - 1], UsedAfter(calls[..|calls| - 1], used)).used
  }

  /** The handshake number `i` came to answer with the accept byte. */
  predicate Accepts(calls: seq<Call>, used: set<Bytes>, i: nat)
    requires i < |calls|
  {
    OutcomeOf(calls[i], UsedAfter(calls[..i], used)).answer == [0]
  }

  lemma OneCall(call: Call, used: set<Bytes>)
    ensures used <= OutcomeOf(call, used).used
    ensures OutcomeOf(call, used).answer == [0] ==> (
      && |call.bytes| >= HANDSHAKE_LEN && call.bytes[..16] !in used
      && call.bytes[..16] in OutcomeOf(call, used).used)
  {
    hide Wire.TakeFrame, Wire.DecodeMessage, ToBase58, ToHex, NameOutcome, PutFault;
  }

  lemma {:induction false} StaysUsed(calls: seq<Call>, used: set<Bytes>, i: nat)
    requires i <= |calls|
    ensures UsedAfter(calls[..i], used) <= UsedAfter(calls, used)
  {
    hide OutcomeOf;
    if i == |calls| {
      assert calls[..i] == calls;
    } else {
      var init := calls[..|calls| - 1];
      assert init[..i] == calls[..i];
      StaysUsed(init, used, i);
      OneCall(calls[|calls| - 1], UsedAfter(init, used));
    }
  }

  /** Whatever the peers send, however their streams end or fail and whichever hub serves them: of a
      series of handshakes no two answer the same nonce with the accept byte, nor does one answer so a
      nonce used before the first. */
  lemma OnceEach(calls: seq<Call>, used: set<Bytes>, i: nat, j: nat)
    requires i < j < |calls| && Accepts(calls, used, i) && Accepts(calls, used, j)
    ensures |calls[i].bytes| >= HANDSHAKE_LEN && |calls[j].bytes| >= HANDSHAKE_LEN
    ensures calls[i].bytes[..16] != calls[j].bytes[..16] && calls[j].bytes[..16] !in used
  {
    hide OutcomeOf;
    OneCall(calls[i], UsedAfter(calls[..i], used));
    OneCall(calls[j], UsedAfter(calls[..j], used));
    assert calls[..i + 1][..i] == calls[..i] && calls[..j][..i + 1] == calls[..i + 1];
    StaysUsed(calls[..j], used, i + 1);
    assert calls[..j][..0] == [];
    StaysUsed(calls[..j], used, 0);
  }

  function DiscOf(call: Call): Bytes { if |call.bytes| < HANDSHAKE_LEN then [] else call.bytes[16..32] }

  /** Different discriminators give different peer ids, whoever checks them. */
  lemma PeerIdsDistinct(a: Call, b: Call, used: set<Bytes>, used': set<Bytes>)
    requires OutcomeOf(a, used).peer.Ok? && OutcomeOf(b, used').peer.Ok? && DiscOf(a) != DiscOf(b)
    ensures OutcomeOf(a, used).peer.value.0 != OutcomeOf(b, used').peer.value.0
  {
    hide OutcomeOf, ToBase58, DiscOf;
    IdOfCall(a, used);
    IdOfCall(b, used');
    if ToBase58(DiscOf(a)) == ToBase58(DiscOf(b)) {
      Base58Injective(DiscOf(a), DiscOf(b));
    }
  }

  lemma IdOfCall(call: Call, used: set<Bytes>)
    requires OutcomeOf(call, used).peer.Ok?
    ensures OutcomeOf(call, used).peer.value.0 == ToBase58(DiscOf(call))
  {
    hide Wire.TakeFrame, Wire.DecodeMessage, ToBase58, ToHex;
  }

  // ---- the joiner's side ----

  /** What the joiner's handshake returns, everything it writes, and what it leaves unread of the hub's
      bytes. */
  datatype JoinerVerdict = JoinerVerdict(id: Result<string, ChatError>, sent: Bytes, rest: Bytes)

  /** `Joiner::handshake` against a hub that sends `reply`. */
  function JoinerOutcome(reply: Bytes, ending: Ending, fares: seq<Fare>, nonce: Bytes, disc: Bytes, name: string)
    : JoinerVerdict
  {
    var hello := nonce + disc;
    match PutFault(fares, "handshake")
    case Some(e) => JoinerVerdict(Err(e), Passed(hello, Next(fares)), reply)
    case None =>
      if reply == [] then
        var what := if ending.Silent? then "handshake read timed out" else "handshake read";
        JoinerVerdict(Err(Connection(what)), hello, [])
      else if reply[0] != 0 then JoinerVerdict(Err(Connection("handshake rejected by hub")), hello, reply[1..])
      else match Wire.EncodeMessage(Json.SystemMessage(name))
        case Err(e) => JoinerVerdict(Err(e), hello, reply[1..])
        case Ok(f) =>
          var rest := Later(Later(fares));
          var id := match PutFault(rest, "handshake name") case Some(e) => Err(e) case None => Ok(ToBase58(disc));
          JoinerVerdict(id, hello + Passed(f, Next(rest)), reply[1..])
  }

  /** `Joiner::handshake`. */
  method JoinerHandshake(stream: ByteStream, nonce: Bytes, disc: Bytes, name: string)
    returns (id: Result<string, ChatError>)
    requires stream.Valid() && stream.sent == []
    modifies stream
    ensures stream.Valid()
    ensures JoinerVerdict(id, stream.sent, stream.Contents())
         == JoinerOutcome(old(stream.Contents()), stream.ending, old(stream.fares), nonce, disc, name)
  {
    hide ToBase58, Wire.EncodeMessage, PutFault, Next, Later, Passed;
    var fault := stream.Put(nonce + disc, "handshake");
    if fault.Some? {
      return Err(fault.value);
    }
    var response := stream.ReadExact(1);
    if response.None? {
      return Err(Connection(if stream.ending.Silent? then "handshake read timed out" else "handshake read"));
    }
    if response.value[0] != 0 {
      return Err(Connection("handshake rejected by hub"));
    }
    var frame := Wire.EncodeMessage(Json.SystemMessage(name));
    if frame.Err? {
      return Err(frame.error);
    }
    fault := stream.Put(frame.value, "handshake name");
    match fault
    case Some(e) => id := Err(e);
    case None => id := Ok(ToBase58(disc));
  }

  /** The two sides fit. If the joiner succeeds against a hub's answer, then the hub, reading what the
      joiner wrote and anything behind it, admits it under the same id and name and stands right behind
      the name frame, as long as the nonce is fresh and its own accept byte gets out; with a used nonce
      nothing it can answer lets a joiner succeed. */
  lemma SidesFit(
      nonce: Bytes, disc: Bytes, name: string, reply: Bytes, ending: Ending, fares: seq<Fare>,
      later: Bytes, used: set<Bytes>, hubEnding: Ending, hubFares: seq<Fare>)
    requires |nonce| == 16 && |disc| == 16 && JoinerOutcome(reply, ending, fares, nonce, disc, name).id.Ok?
    ensures var v := JoinerOutcome(reply, ending, fares, nonce, disc, name);
            nonce !in used && PutFault(hubFares, "handshake") == None ==>
              RoomOutcome(v.sent + later, hubEnding, hubFares, used)
              == Verdict(Ok((v.id.value, name)), [0], used + {nonce}, later)
    ensures nonce in used ==>
              RoomOutcome(nonce + disc, hubEnding, hubFares, used).answer in {[], [1]}
    ensures forall answer, e, fs :: answer in {[], [1]} ==> JoinerOutcome(answer, e, fs, nonce, disc, name).id.Err?
  {
    hide ToBase58, Wire.EncodeMessage, Wire.DecodeMessage, Wire.TakeFrame, Wire.IsFrame;
    var f := Wire.EncodeMessage(Json.SystemMessage(name)).value;
    var bs := nonce + disc + f + later;
    Wire.EncodingIsFrame(Json.SystemMessage(name));
    Wire.MessageRoundTrip(Json.SystemMessage(name));
    assert bs == nonce + disc + (f + later) && nonce + disc == nonce + disc + [];
    Sections(nonce, disc, f + later);
    Sections(nonce, disc, []);
    Wire.FrameReads(f, later);
  }

  /** The joiner succeeds exactly when its writes get out, the hub's first byte is zero and its name
      encodes. */
  lemma JoinerExactly(
      reply: Bytes, ending: Ending, fares: seq<Fare>, nonce: Bytes, disc: Bytes, name: string)
    ensures JoinerOutcome(reply, ending, fares, nonce, disc, name).id.Ok? <==>
      && PutFault(fares, "handshake") == None && reply != [] && reply[0] == 0
      && Wire.EncodeMessage(Json.SystemMessage(name)).Ok?
      && PutFault(Later(Later(fares)), "handshake name") == None
    ensures PutFault(fares, "handshake") == None && reply != [] && reply[0] != 0 ==>
      JoinerOutcome(reply, ending, fares, nonce, disc, name)
      == JoinerVerdict(Err(Connection("handshake rejected by hub")), nonce + disc, reply[1..])
  {
    hide ToBase58, Wire.EncodeMessage, PutFault;
  }

  /** The room's handshake admits exactly a peer with 32 bytes, a fresh nonce and a readable name, when the
      accept byte gets out. A used nonce is answered with 1 and is the one cause of `NonceReused`. */
  lemma RoomExactly(bs: Bytes, ending: Ending, fares: seq<Fare>, used: set<Bytes>)
    ensures RoomOutcome(bs, ending, fares, used).peer.Ok? <==>
      && |bs| >= 32 && bs[..16] !in used && PutFault(fares, "handshake") == None
      && Wire.TakeFrame(bs[32..]).result.Ok? && Wire.DecodeMessage(Wire.TakeFrame(bs[32..]).result.value).Ok?
    ensures RoomOutcome(bs, ending, fares, used).peer == Err(NonceReused) <==> |bs| >= 32 && bs[..16] in used
    ensures |bs| >= 32 && fares == [] ==>
      RoomOutcome(bs, ending, fares, used).answer == if bs[..16] in used then [1] else [0]
  {
    hide ToBase58, Wire.TakeFrame, Wire.DecodeMessage;
  }

  /** The hub's handshake admits exactly a peer with 32 bytes and a fresh nonce, whoever came before, when
      the accept byte gets out: under the Base58 of the discriminator, and `peer-` with its first four
      bytes in hex. */
  lemma HubExactly(bs: Bytes, ending: Ending, fares: seq<Fare>, used: set<Bytes>)
    ensures HubOutcome(bs, ending, fares, used).peer.Ok? <==>
      |bs| >= 32 && bs[..16] !in used && PutFault(fares, "handshake") == None
    ensures HubOutcome(bs, ending, fares, used).peer.Ok? ==>
      HubOutcome(bs, ending, fares, used)
      == Verdict(Ok((ToBase58(bs[16..32]), "peer-" + ToHex(bs[16..20]))), [0], used + {bs[..16]}, bs[32..])
    ensures HubOutcome(bs, ending, fares, used).peer == Err(NonceReused) <==> |bs| >= 32 && bs[..16] in used
    ensures |bs| >= 32 && fares == [] ==>
      HubOutcome(bs, ending, fares, used).answer == if bs[..16] in used then [1] else [0]
  {
    hide ToBase58, ToHex;
    if |bs| >= 32 { assert bs[16..32][..4] == bs[16..20]; }
  }

  // ---- how handshakes fail ----

  /** A write or flush that breaks is named after what was written; one over its time limit says so. */
  lemma WriteFaults(n: nat, rest: seq<Fare>, what: string)
    ensures PutFault([Breaks(n)] + rest, what) == Some(Connection(what + " write"))
    ensures PutFault([Stalls(n)] + rest, what) == Some(Connection(what + " write timed out"))
    ensures PutFault([Works, Breaks(n)] + rest, what) == Some(Connection(what + " flush"))
    ensures PutFault([Works, Stalls(n)] + rest, what) == Some(Connection(what + " flush timed out"))
    ensures PutFault([Works, Works] + rest, what) == None
  {
    assert what + " write" + " timed out" == what + " write timed out";
    assert what + " flush" + " timed out" == what + " flush timed out";
  }

  /** What was written before the fault has got out. */
  lemma PassedExactly(bs: Bytes, n: nat)
    ensures Passed(bs, Works) == bs
    ensures n <= |bs| ==> Passed(bs, Breaks(n)) == Passed(bs, Stalls(n)) == bs[..n]
  {
  }

  /** A stream that ends within the 32 bytes: only the hub, and only at a clean end, answers, with 1. No
      nonce is used up. */
  lemma ShortHello(bs: Bytes, ending: Ending, fares: seq<Fare>, used: set<Bytes>)
    requires |bs| < 32
    ensures RoomOutcome(bs, ending, fares, used).answer == [] && RoomOutcome(bs, ending, fares, used).used == used
    ensures RoomOutcome(bs, ending, fares, used).peer
         == Err(Connection(if ending == Silent then "handshake timed out" else "handshake read"))
    ensures HubOutcome(bs, ending, fares, used).used == used
    ensures HubOutcome(bs, Closed, fares, used).peer == Err(InvalidInvite(HandshakeEof))
    ensures HubOutcome(bs, Faulty, fares, used).peer == Err(Connection("handshake read"))
    ensures HubOutcome(bs, Silent, fares, used).peer == Err(Connection("handshake timed out"))
    ensures fares == [] ==> HubOutcome(bs, ending, fares, used).answer == if ending == Closed then [1] else []
  {
  }

  /** From the nonce check on the nonce stays used, whatever fails: the accept byte, or reading the name. */
  lemma LateFaults(bs: Bytes, ending: Ending, fares: seq<Fare>, used: set<Bytes>)
    requires |bs| >= 32 && bs[..16] !in used
    ensures RoomOutcome(bs, ending, fares, used).used == HubOutcome(bs, ending, fares, used).used == used + {bs[..16]}
    ensures PutFault(fares, "handshake").Some? ==>
      RoomOutcome(bs, ending, fares, used).peer == HubOutcome(bs, ending, fares, used).peer
      == Err(PutFault(fares, "handshake").value)
    ensures PutFault(fares, "handshake").None? && Wire.TakeFrame(bs[32..]).result.Err? ==>
      RoomOutcome(bs, ending, fares, used).peer
      == Err(Connection(
           if ending == Silent && ShortRead(Wire.TakeFrame(bs[32..]).result.error) then "handshake name read timed out"
           else "handshake name read"))
    ensures
      var frame := Wire.TakeFrame(bs[32..]).result;
      PutFault(fares, "handshake").None? && frame.Ok? && Wire.DecodeMessage(frame.value).Err? ==>
        RoomOutcome(bs, ending, fares, used).peer == Err(Connection("handshake name decode"))
  {
    hide ToBase58, ToHex, Wire.TakeFrame, Wire.DecodeMessage, PutFault;
  }

  /** The joiner's failures, and how much it has written by then. */
  lemma JoinerFaults(reply: Bytes, ending: Ending, fares: seq<Fare>, nonce: Bytes, disc: Bytes, name: string)
    ensures var v := JoinerOutcome(reply, ending, fares, nonce, disc, name);
      if PutFault(fares, "handshake").Some? then v.id == Err(PutFault(fares, "handshake").value)
      else if reply == [] then
        && v.id == Err(Connection(if ending == Silent then "handshake read timed out" else "handshake read"))
        && v.sent == nonce + disc
      else if reply[0] != 0 then v.id == Err(Connection("handshake rejected by hub")) && v.sent == nonce + disc
      else if Wire.EncodeMessage(Json.SystemMessage(name)).Err? then
        v.id == Err(Wire.EncodeMessage(Json.SystemMessage(name)).error) && v.sent == nonce + disc
      else if PutFault(Later(Later(fares)), "handshake name").Some? then
        v.id == Err(PutFault(Later(Later(fares)), "handshake name").value) && nonce + disc <= v.sent
      else v.id == Ok(ToBase58(disc))
  {
    hide ToBase58, Wire.EncodeMessage, PutFault;
  }

  predicate AllWork(fares: seq<Fare>) { forall i :: 0 <= i < |fares| ==> fares[i].Works? }

  lemma WorkingPuts(fares: seq<Fare>, what: string)
    requires AllWork(fares)
    ensures PutFault(fares, what) == None && AllWork(Later(fares)) && AllWork(Later(Later(fares)))
  {
  }

  /** And they do meet: with a fresh nonce, a name that encodes and writes that work, the room admits what
      the joiner writes, and the joiner, fed the room's answer and anything behind it, succeeds having
      written just that, standing right behind the answer. */
  lemma BothSucceed(
      nonce: Bytes, disc: Bytes, name: string, used: set<Bytes>,
      more: Bytes, hubEnding: Ending, hubFares: seq<Fare>, later: Bytes, ending: Ending, fares: seq<Fare>)
    requires |nonce| == 16 && |disc| == 16 && nonce !in used && AllWork(fares) && AllWork(hubFares)
    requires Wire.EncodeMessage(Json.SystemMessage(name)).Ok?
    ensures var sent := nonce + disc + Wire.EncodeMessage(Json.SystemMessage(name)).value;
      var hub := RoomOutcome(sent + more, hubEnding, hubFares, used);
      && hub == Verdict(Ok((ToBase58(disc), name)), [0], used + {nonce}, more)
      && JoinerOutcome(hub.answer + later, ending, fares, nonce, disc, name)
         == JoinerVerdict(Ok(ToBase58(disc)), sent, later)
  {
    WorkingPuts(fares, "handshake");
    WorkingPuts(hubFares, "handshake");
    WorkingPuts(Later(Later(fares)), "handshake name");
    JoinerAccepts(later, ending, fares, nonce, disc, name);
    hide ToBase58, Wire.EncodeMessage, PutFault, AllWork, Next, RoomOutcome;
    SidesFit(nonce, disc, name, [0] + later, ending, fares, more, used, hubEnding, hubFares);
  }

  lemma JoinerAccepts(later: Bytes, ending: Ending, fares: seq<Fare>, nonce: Bytes, disc: Bytes, name: string)
    requires AllWork(fares) && Wire.EncodeMessage(Json.SystemMessage(name)).Ok?
    ensures JoinerOutcome([0] + later, ending, fares, nonce, disc, name)
         == JoinerVerdict(Ok(ToBase58(disc)), nonce + disc + Wire.EncodeMessage(Json.SystemMessage(name)).value, later)
  {
    hide ToBase58, Wire.EncodeMessage;
    WorkingPuts(fares, "handshake");
    WorkingPuts(Later(Later(fares)), "handshake name");
    assert ([0] + later)[1..] == later;
  }

  lemma Sections(nonce: Bytes, disc: Bytes, tail: Bytes)
    requires |nonce| == 16 && |disc| == 16
    ensures var bs := nonce + disc + tail;
      bs[..16] == nonce && bs[16..HANDSHAKE_LEN] == disc && bs[HANDSHAKE_LEN..] == tail
  {
  }
}
