/** Joiner and hub handshakes running against each other over two byte channels, with every write and
    read cut into arbitrary pieces and every timeout possible at any time. */
module Handshake {
  import opened Basics
  import opened Codecs
  import Json
  import Stream
  import Wire

  const HELLO := 32

  /** `Joiner::handshake`: the 32 bytes, the answer, the name frame. */
  datatype JoinerAt = Greeting(left: Bytes) | AwaitAnswer | Naming(left: Bytes) | Joined | JoinerFailed

  /** `hub_handshake`: the 32 bytes, the nonce check, the accept byte, the name frame. */
  datatype HubAt =
    | Hearing(buf: Bytes) | Judging | Answering | Listening(buf: Bytes)
    | Admitted(id: string, name: string) | HubFailed

  /** Both sides and the bytes in flight. `later` and `laterDown` are what each side writes after its
      handshake; `read` and `readDown` what the hub and the joiner have read (history). */
  datatype State = State(
    joiner: JoinerAt, hub: HubAt, up: Bytes, down: Bytes, used: set<Bytes>,
    read: Bytes, later: Bytes, readDown: Bytes, laterDown: Bytes)

  /** The joiner's nonce and discriminator, its name, and the nonces used before. */
  datatype Setup = Setup(hello: Hello, name: string, used: set<Bytes>)

  type Hello = bs: Bytes | |bs| == HELLO witness seq(HELLO, _ => 0)

  function NameFrame(p: Setup): Result<Bytes, ChatError> { Wire.EncodeMessage(Json.SystemMessage(p.name)) }

  function Start(p: Setup): State {
    State(Greeting(p.hello), Hearing([]), [], [], p.used, [], [], [], [])
  }

  datatype Action =
    | Greet(n: nat) | TakeAnswer | SendName(n: nat) | SendLater(bytes: Bytes) | JoinerTimeout
    | Hear(n: nat) | Judge | Answer | Listen(n: nat) | WriteLater(bytes: Bytes) | HubTimeout

  /** How many more bytes `read_frame` asks for. */
  function Need(buf: Bytes): int {
    if |buf| < 4 then 4 - |buf| else 4 + Wire.FromBigEndian32(buf[..4]) - |buf|
  }

  predicate Enabled(s: State, a: Action) {
    match a
    case Greet(n) => s.joiner.Greeting? && 0 < n <= |s.joiner.left|
    case TakeAnswer => s.joiner.AwaitAnswer? && s.down != []
    case SendName(n) => s.joiner.Naming? && 0 < n <= |s.joiner.left|
    case SendLater(_) => s.joiner.Joined?
    case JoinerTimeout => !s.joiner.Joined?
    case Hear(n) => s.hub.Hearing? && 0 < n <= |s.up| && |s.hub.buf| + n <= HELLO
    case Judge => s.hub.Judging? && |s.read| >= HELLO
    case Answer => s.hub.Answering?
    case Listen(n) => s.hub.Listening? && 0 < n <= |s.up| && n <= Need(s.hub.buf) && |s.read| >= HELLO
    case WriteLater(_) => s.hub.Admitted?
    case HubTimeout => !s.hub.Admitted?
  }

  function TakeAnswerStep(p: Setup, s: State): State
    requires s.down != []
  {
    var t := s.(down := s.down[1..], readDown := s.readDown + [s.down[0]]);
    if s.down[0] != 0 then t.(joiner := JoinerFailed)
    else match NameFrame(p)
      case Err(_) => t.(joiner := JoinerFailed)
      case Ok(f) => t.(joiner := Naming(f))
  }

  /** After more of the name frame has arrived: a bad header ends the handshake, a complete frame is
      decoded. */
  function Heard(buf: Bytes, hello: Bytes): HubAt
    requires |hello| >= HELLO
  {
    var t := Wire.TakeFrame(buf);
    match t.result
    case Err(WireFault(HeaderRead)) => Listening(buf)
    case Err(WireFault(PayloadRead)) => Listening(buf)
    case Err(_) => HubFailed
    case Ok(f) =>
      match Wire.DecodeMessage(f)
      case Err(_) => HubFailed
      case Ok(m) => Admitted(ToBase58(hello[16..HELLO]), m.text)
  }

  function Apply(p: Setup, s: State, a: Action): State
    requires Enabled(s, a)
  {
    match a
    case Greet(n) =>
      s.(up := s.up + s.joiner.left[..n],
         joiner := if n == |s.joiner.left| then AwaitAnswer else Greeting(s.joiner.left[n..]))
    case TakeAnswer => TakeAnswerStep(p, s)
    case SendName(n) =>
      s.(up := s.up + s.joiner.left[..n], joiner := if n == |s.joiner.left| then Joined else Naming(s.joiner.left[n..]))
    case SendLater(bytes) => s.(up := s.up + bytes, later := s.later + bytes)
    case JoinerTimeout => s.(joiner := JoinerFailed)
    case Hear(n) =>
      var buf := s.hub.buf + s.up[..n];
      s.(up := s.up[n..], read := s.read + s.up[..n], hub := if |buf| == HELLO then Judging else Hearing(buf))
    case Judge =>
      if s.read[..16] in s.used then s.(down := s.down + [1], hub := HubFailed)
      else s.(used := s.used + {s.read[..16]}, hub := Answering)
    case Answer => s.(down := s.down + [0], hub := Listening([]))
    case Listen(n) =>
      s.(up := s.up[n..], read := s.read + s.up[..n], hub := Heard(s.hub.buf + s.up[..n], s.read))
    case WriteLater(bytes) => s.(down := s.down + bytes, laterDown := s.laterDown + bytes)
    case HubTimeout => s.(hub := HubFailed)
  }

  function Exec(p: Setup, run: seq<Action>): (r: Option<State>) {
    if run == [] then Some(Start(p))
    else match Exec(p, run[..|run| - 1])
      case None => None
      case Some(s) => if Enabled(s, run[|run| - 1]) then Some(Apply(p, s, run[|run| - 1])) else None
  }

  // ---- the invariant ----

  /** The name frame, or nothing when the name does not encode. */
  function Frame(p: Setup): Bytes {
    match NameFrame(p)
    case Err(_) => []
    case Ok(f) => f
  }

  /** What the joiner has written. */
  ghost predicate JoinerWrote(p: Setup, s: State) {
    match s.joiner
    case Greeting(left) => left != [] && p.hello == s.read + s.up + left && s.later == []
    case AwaitAnswer => s.read + s.up == p.hello && s.later == []
    case Naming(left) => NameFrame(p).Ok? && left != [] && p.hello + Frame(p) == s.read + s.up + left && s.later == []
    case Joined => NameFrame(p).Ok? && s.read + s.up == p.hello + Frame(p) + s.later
    case JoinerFailed => s.read + s.up <= p.hello + Frame(p) && s.later == []
  }

  /** What the hub has read. */
  ghost predicate HubRead(p: Setup, s: State) {
    match s.hub
    case Hearing(buf) => s.read == buf && |buf| < HELLO
    case Judging => s.read == p.hello
    case Answering => s.read == p.hello
    case Listening(buf) => s.read == p.hello + buf && buf <= Frame(p) && (buf == Frame(p) ==> buf == [])
    case Admitted(id, name) =>
      NameFrame(p).Ok? && s.read == p.hello + Frame(p) && id == ToBase58(p.hello[16..HELLO]) && name == p.name
    case HubFailed => true
  }

  /** The answer byte and who has seen it. */
  ghost predicate Answered(p: Setup, s: State) {
    && (s.hub.Hearing? || s.hub.Judging? || s.hub.Answering? ==> s.down == [] && s.readDown == [])
    && (s.hub.Listening? || s.hub.Admitted? ==> s.readDown + s.down == [0] + s.laterDown)
    && (!s.hub.Admitted? ==> s.laterDown == [])
    && (s.hub.HubFailed? ==> s.readDown + s.down in {[], [0], [1]})
    && (s.joiner.Greeting? || s.joiner.AwaitAnswer? ==> s.readDown == [])
    && (s.joiner.Naming? || s.joiner.Joined? ==> s.readDown == [0])
    && (s.readDown + s.down != [] && (s.readDown + s.down)[0] == 0 ==> p.hello[..16] !in p.used)
    && (s.hub.Answering? ==> p.hello[..16] !in p.used)
    && (s.hub.Hearing? || s.hub.Judging? ==> s.used == p.used)
    && (s.hub.Answering? || s.hub.Listening? || s.hub.Admitted? ==> s.used == p.used + {p.hello[..16]})
    && (s.hub.HubFailed? ==> s.used == p.used || s.used == p.used + {p.hello[..16]})
  }

  ghost predicate Inv(p: Setup, s: State) { JoinerWrote(p, s) && HubRead(p, s) && Answered(p, s) }

  lemma NameFrameReads(p: Setup)
    requires NameFrame(p).Ok?
    ensures Wire.IsFrame(Frame(p)) && |Frame(p)| > 4
    ensures Wire.DecodeMessage(Frame(p)) == Ok(Json.SystemMessage(p.name))
  {
    Wire.EncodingIsFrame(Json.SystemMessage(p.name));
    Wire.MessageRoundTrip(Json.SystemMessage(p.name));
  }

  /** Part of the name frame tells the hub how much of it is missing. */
  lemma NeedOfPart(f: Bytes, buf: Bytes)
    requires Wire.IsFrame(f) && buf <= f
    ensures |buf| + Need(buf) == if |buf| < 4 then 4 else |f|
    ensures |f| > 4
  {
    if |buf| >= 4 {
      assert buf[..4] == f[..4];
    }
  }

  lemma HeardPart(p: Setup, buf: Bytes, hello: Bytes)
    requires NameFrame(p).Ok? && buf <= Frame(p) && |hello| >= HELLO && hello[..HELLO] == p.hello
    ensures buf != Frame(p) ==> Heard(buf, hello) == Listening(buf)
    ensures buf == Frame(p) ==> Heard(buf, hello) == Admitted(ToBase58(p.hello[16..HELLO]), p.name)
  {
    hide Wire.EncodeMessage, Wire.DecodeMessage, Wire.IsFrame, Wire.TakeFrame, ToBase58, NameFrame, Frame, Heard;
    NameFrameReads(p);
    FrameReads(p, []);
    var f := Frame(p);
    assert f + [] == f;
    if buf != f {
      assert |buf| < |f|;
      TornRead(f, buf);
      HeardTorn(buf, hello);
    } else {
      HeardWhole(buf, hello);
      assert hello[16..HELLO] == hello[..HELLO][16..] == p.hello[16..HELLO];
    }
  }

  lemma HeardTorn(buf: Bytes, hello: Bytes)
    requires |hello| >= HELLO
    requires Wire.TakeFrame(buf).result in {Err(WireFault(HeaderRead)), Err(WireFault(PayloadRead))}
    ensures Heard(buf, hello) == Listening(buf)
  {
    hide Wire.DecodeMessage, Wire.TakeFrame, ToBase58;
  }

  lemma HeardWhole(buf: Bytes, hello: Bytes)
    requires |hello| >= HELLO && Wire.TakeFrame(buf).result == Ok(buf) && Wire.DecodeMessage(buf).Ok?
    ensures Heard(buf, hello) == Admitted(ToBase58(hello[16..HELLO]), Wire.DecodeMessage(buf).value.text)
  {
    hide Wire.DecodeMessage, Wire.TakeFrame, ToBase58;
  }

  lemma TornRead(f: Bytes, buf: Bytes)
    requires Wire.IsFrame(f) && buf <= f && |buf| < |f|
    ensures Wire.TakeFrame(buf).result in {Err(WireFault(HeaderRead)), Err(WireFault(PayloadRead))}
  {
    Wire.CutFrame(f, |buf|);
    assert f[..|buf|] == buf;
  }

  lemma ListenKeeps(p: Setup, s: State, n: nat)
    requires Inv(p, s) && Enabled(s, Listen(n))
    ensures Inv(p, Apply(p, s, Listen(n)))
    ensures NameFrame(p).Ok? && |s.hub.buf| + n <= |Frame(p)|
    ensures var s' := Apply(p, s, Listen(n)); s'.hub.Admitted? || s'.hub == Listening(s.hub.buf + s.up[..n])
  {
    ListenHears(p, s, n);
    ListenMoves(p, s, n);
    hide Enabled, Apply, Heard, ToBase58, NameFrame, Frame, Inv;
    MoreRead(p, s, Apply(p, s, Listen(n)), s.up[..n], s.up[n..]);
  }

  lemma MoreRead(p: Setup, s: State, t: State, heard: Bytes, left: Bytes)
    requires Inv(p, s) && s.hub.Listening? && s.up == heard + left
    requires NameFrame(p).Ok? && s.hub.buf + heard <= Frame(p) && s.read + heard == p.hello + (s.hub.buf + heard)
    requires t == s.(up := left, read := s.read + heard, hub := t.hub)
    requires t.hub == if s.hub.buf + heard == Frame(p) then Admitted(ToBase58(p.hello[16..HELLO]), p.name)
                      else Listening(s.hub.buf + heard)
    ensures Inv(p, t)
  {
    hide ToBase58, NameFrame, Frame, JoinerWrote, HubRead, Answered;
    assert s.read + heard + left == s.read + (heard + left);
    SameLine(p, s, t);
    SameAnswer(p, s, t);
    ReadSoFar(p, t, s.hub.buf + heard);
  }

  lemma ReadSoFar(p: Setup, t: State, buf: Bytes)
    requires NameFrame(p).Ok? && buf <= Frame(p) && t.read == p.hello + buf
    requires t.hub == if buf == Frame(p) then Admitted(ToBase58(p.hello[16..HELLO]), p.name) else Listening(buf)
    ensures HubRead(p, t)
  {
    hide NameFrame, Frame, ToBase58;
  }

  lemma SameLine(p: Setup, s: State, t: State)
    requires JoinerWrote(p, s) && t.joiner == s.joiner && t.later == s.later && t.read + t.up == s.read + s.up
    ensures JoinerWrote(p, t)
  {
    hide NameFrame, Frame;
  }

  lemma SameAnswer(p: Setup, s: State, t: State)
    requires Answered(p, s) && s.hub.Listening? && (t.hub.Listening? || t.hub.Admitted?)
    requires t == s.(up := t.up, read := t.read, hub := t.hub)
    ensures Answered(p, t)
  {
  }

  lemma ListenMoves(p: Setup, s: State, n: nat)
    requires Enabled(s, Listen(n))
    ensures Apply(p, s, Listen(n))
         == s.(up := s.up[n..], read := s.read + s.up[..n], hub := Heard(s.hub.buf + s.up[..n], s.read))
    ensures s.hub.Listening? && n <= |s.up|
  {
    hide Heard, Need;
  }

  /** The hub hears more of the name frame, and no more than the frame. */
  lemma ListenHears(p: Setup, s: State, n: nat)
    requires Inv(p, s) && Enabled(s, Listen(n))
    ensures NameFrame(p).Ok? && |s.hub.buf| + n <= |Frame(p)|
    ensures var buf' := s.hub.buf + s.up[..n];
      && buf' <= Frame(p) && s.read + s.up[..n] == p.hello + buf'
      && Heard(buf', s.read) == (if buf' == Frame(p) then Admitted(ToBase58(p.hello[16..HELLO]), p.name)
                                 else Listening(buf'))
  {
    hide Wire.EncodeMessage, Wire.TakeFrame, Wire.DecodeMessage, Wire.IsFrame, Need, Heard, ToBase58, NameFrame, Frame;
    var buf, f := s.hub.buf, Frame(p);
    FrameOrNothing(p);
    assert s.up != [];
    assert (s.read + s.up)[|s.read|] == s.up[0];
    assert NameFrame(p).Ok?;
    NameFrameReads(p);
    NeedOfPart(f, buf);
    var buf' := buf + s.up[..n];
    assert s.read + s.up == p.hello + (buf' + s.up[n..]);
    assert buf' <= f by {
      UpFollowsFrame(p, s);
      assert |buf'| <= |f|;
      assert buf' == (buf + s.up)[..|buf'|];
    }
    HeardPart(p, buf', s.read);
    assert s.read + s.up[..n] == p.hello + buf';
  }

  lemma FrameOrNothing(p: Setup)
    ensures NameFrame(p).Err? ==> Frame(p) == []
  {
  }

  /** While the hub listens, what it has and what is in flight run along the name frame. */
  lemma UpFollowsFrame(p: Setup, s: State)
    requires Inv(p, s) && s.hub.Listening?
    ensures forall i :: 0 <= i < |s.hub.buf + s.up| && i < |Frame(p)| ==> (s.hub.buf + s.up)[i] == Frame(p)[i]
  {
    hide NameFrame, Frame;
    var all := s.hub.buf + s.up;
    assert s.read + s.up == p.hello + all;
    forall i | 0 <= i < |all| && i < |Frame(p)| ensures all[i] == Frame(p)[i] {
      assert (p.hello + all)[HELLO + i] == all[i];
      assert (p.hello + Frame(p))[HELLO + i] == Frame(p)[i];
    }
  }

  lemma UpFollowsHello(p: Setup, s: State)
    requires JoinerWrote(p, s)
    ensures forall i :: 0 <= i < |s.read + s.up| && i < HELLO ==> (s.read + s.up)[i] == p.hello[i]
  {
    hide NameFrame, Frame;
  }

  lemma HearKeeps(p: Setup, s: State, n: nat)
    requires Inv(p, s) && Enabled(s, Hear(n))
    ensures Inv(p, Apply(p, s, Hear(n)))
  {
    hide NameFrame, Frame, ToBase58;
    UpFollowsHello(p, s);
    var s' := Apply(p, s, Hear(n));
    assert s.up == s.up[..n] + s.up[n..];
    assert s'.read + s'.up == s.read + s.up;
    if |s'.read| == HELLO {
      forall i | 0 <= i < HELLO ensures s'.read[i] == p.hello[i] {
        assert s'.read[i] == (s.read + s.up)[i];
      }
    }
  }

  lemma WriteLaterKeeps(p: Setup, s: State, bytes: Bytes)
    requires Inv(p, s) && Enabled(s, WriteLater(bytes))
    ensures Inv(p, Apply(p, s, WriteLater(bytes)))
  {
    hide NameFrame, Frame, ToBase58;
    var s' := Apply(p, s, WriteLater(bytes));
    assert s'.readDown + s'.down == (s.readDown + s.down) + bytes;
    assert [0] + s'.laterDown == ([0] + s.laterDown) + bytes;
  }

  lemma JudgeKeeps(p: Setup, s: State)
    requires Inv(p, s) && Enabled(s, Judge)
    ensures Inv(p, Apply(p, s, Judge))
  {
    hide NameFrame, Frame, ToBase58;
    assert s.readDown + (s.down + [1]) == [1];
  }

  lemma AnswerKeeps(p: Setup, s: State)
    requires Inv(p, s) && Enabled(s, Answer)
    ensures Inv(p, Apply(p, s, Answer))
  {
    hide NameFrame, Frame, ToBase58;
    assert p.hello + [] == p.hello;
    assert s.readDown + (s.down + [0]) == (s.readDown + s.down) + [0];
  }

  lemma HubTimeoutKeeps(p: Setup, s: State)
    requires Inv(p, s) && Enabled(s, HubTimeout)
    ensures Inv(p, Apply(p, s, HubTimeout))
  {
    hide NameFrame, Frame, ToBase58;
    if s.hub.Listening? {
      assert [0] + s.laterDown == [0];
    } else if !s.hub.HubFailed? {
      assert s.readDown + s.down == [];
    }
  }

  lemma GreetKeeps(p: Setup, s: State, n: nat)
    requires Inv(p, s) && Enabled(s, Greet(n))
    ensures Inv(p, Apply(p, s, Greet(n)))
  {
    hide NameFrame, Frame, ToBase58;
    var left := s.joiner.left;
    assert s.read + s.up + left == s.read + (s.up + left[..n]) + left[n..];
    if n == |left| { assert left[..n] == left && s.read + s.up + left == s.read + (s.up + left); }
  }

  lemma SendNameKeeps(p: Setup, s: State, n: nat)
    requires Inv(p, s) && Enabled(s, SendName(n))
    ensures Inv(p, Apply(p, s, SendName(n)))
  {
    hide NameFrame, Frame, ToBase58;
    var left := s.joiner.left;
    assert s.read + s.up + left == s.read + (s.up + left[..n]) + left[n..];
    if n == |left| {
      assert left[..n] == left && s.read + s.up + left == s.read + (s.up + left);
      assert p.hello + Frame(p) + [] == p.hello + Frame(p);
    }
  }

  lemma TakeAnswerKeeps(p: Setup, s: State)
    requires Inv(p, s) && Enabled(s, TakeAnswer)
    ensures Inv(p, Apply(p, s, TakeAnswer))
  {
    hide ToBase58, Wire.EncodeMessage, Wire.IsFrame, Wire.DecodeMessage, Need, Heard;
    if NameFrame(p).Ok? { NameFrameReads(p); }
    var s' := Apply(p, s, TakeAnswer);
    assert s.down == [s.down[0]] + s.down[1..];
    assert s'.readDown + s'.down == s.readDown + s.down;
    assert s.read + s.up + Frame(p) == p.hello + Frame(p);
    hide NameFrame;
  }

  lemma SendLaterKeeps(p: Setup, s: State, bytes: Bytes)
    requires Inv(p, s) && Enabled(s, SendLater(bytes))
    ensures Inv(p, Apply(p, s, SendLater(bytes)))
  {
    hide NameFrame, Frame, ToBase58;
    assert s.read + (s.up + bytes) == (s.read + s.up) + bytes;
    assert p.hello + Frame(p) + (s.later + bytes) == (p.hello + Frame(p) + s.later) + bytes;
  }

  lemma JoinerTimeoutKeeps(p: Setup, s: State)
    requires Inv(p, s) && Enabled(s, JoinerTimeout)
    ensures Inv(p, Apply(p, s, JoinerTimeout))
  {
    hide NameFrame, Frame, ToBase58;
    if s.joiner.Greeting? {
      assert s.read + s.up <= s.read + s.up + s.joiner.left;
      assert p.hello <= p.hello + Frame(p);
    } else if s.joiner.Naming? {
      assert s.read + s.up <= s.read + s.up + s.joiner.left;
    }
  }

  lemma InvStep(p: Setup, s: State, a: Action)
    requires Inv(p, s) && Enabled(s, a)
    ensures Inv(p, Apply(p, s, a))
  {
    hide Inv, Apply;
    match a
    case Greet(n) => GreetKeeps(p, s, n);
    case TakeAnswer => TakeAnswerKeeps(p, s);
    case SendName(n) => SendNameKeeps(p, s, n);
    case Hear(n) => HearKeeps(p, s, n);
    case Listen(n) => ListenKeeps(p, s, n);
    case WriteLater(bytes) => WriteLaterKeeps(p, s, bytes);
    case SendLater(bytes) => SendLaterKeeps(p, s, bytes);
    case JoinerTimeout => JoinerTimeoutKeeps(p, s);
    case Judge => JudgeKeeps(p, s);
    case Answer => AnswerKeeps(p, s);
    case HubTimeout => HubTimeoutKeeps(p, s);
  }

  lemma {:induction false} InvHolds(p: Setup, run: seq<Action>)
    requires Exec(p, run).Some?
    ensures Inv(p, Exec(p, run).value)
  {
    hide Enabled, Apply;
    if run == [] {
      assert [] + [] + p.hello == p.hello;
    } else {
      InvHolds(p, run[..|run| - 1]);
      InvStep(p, Exec(p, run[..|run| - 1]).value, run[|run| - 1]);
    }
  }

  // ---- agreement ----

  /** Whenever both sides have succeeded they agree: the hub knows the joiner under the id the joiner
      computed itself and under the joiner's name; the hub has read exactly the 32 bytes and the name
      frame and the joiner exactly the accept byte, so what is still in flight either way is exactly
      what the other side wrote afterwards. */
  lemma Agreement(p: Setup, run: seq<Action>)
    requires Exec(p, run).Some? && Exec(p, run).value.joiner.Joined? && Exec(p, run).value.hub.Admitted?
    ensures var s := Exec(p, run).value;
      && NameFrame(p).Ok?
      && s.hub == Admitted(ToBase58(p.hello[16..HELLO]), p.name)
      && s.read == p.hello + NameFrame(p).value && s.up == s.later
      && s.readDown == [0] && s.down == s.laterDown
      && p.hello[..16] !in p.used
  {
    InvHolds(p, run);
    var s := Exec(p, run).value;
    hide Exec, ToBase58;
    assert (s.readDown + s.down)[0] == 0;
    assert (s.read + s.up)[|s.read|..] == s.up;
    assert (p.hello + Frame(p) + s.later)[|p.hello + Frame(p)|..] == s.later;
    assert (s.readDown + s.down)[1..] == s.down;
    assert ([0] + s.laterDown)[1..] == s.laterDown;
  }

  /** A hub that has admitted the joiner, byte by byte and beside it, has come to what `hub_handshake`
      computes when it runs alone on everything the joiner has written. */
  lemma AdmittedIsVerdict(p: Setup, run: seq<Action>)
    requires Exec(p, run).Some? && Exec(p, run).value.hub.Admitted?
    ensures var s := Exec(p, run).value;
      Stream.RoomVerdict(s.read + s.up, p.used)
      == Stream.Verdict(Ok((s.hub.id, s.hub.name)), [0], s.used, s.up)
  {
    InvHolds(p, run);
    UsedNonceRefused(p, run);
    hide Exec, Inv, Stream.RoomVerdict;
    VerdictOfAdmitted(p, Exec(p, run).value);
  }

  lemma VerdictOfAdmitted(p: Setup, s: State)
    requires Inv(p, s) && s.hub.Admitted? && p.hello[..16] !in p.used
    ensures Stream.RoomVerdict(s.read + s.up, p.used)
         == Stream.Verdict(Ok((s.hub.id, s.hub.name)), [0], s.used, s.up)
  {
    hide ToBase58, NameFrame, Frame, Wire.TakeFrame, Wire.IsFrame, Wire.DecodeMessage, Wire.EncodeMessage;
    FrameReads(p, s.up);
    var bs := s.read + s.up;
    assert bs[..16] == p.hello[..16] && bs[16..HELLO] == p.hello[16..HELLO] && bs[HELLO..] == Frame(p) + s.up;
  }

  lemma FrameReads(p: Setup, rest: Bytes)
    requires NameFrame(p).Ok?
    ensures Wire.TakeFrame(Frame(p) + rest) == Wire.Taken(Ok(Frame(p)), rest)
    ensures Wire.DecodeMessage(Frame(p)) == Ok(Json.SystemMessage(p.name))
  {
    hide Wire.TakeFrame, Wire.IsFrame, Wire.DecodeMessage, Wire.EncodeMessage;
    NameFrameReads(p);
    Wire.FrameReads(Frame(p), rest);
  }

  /** And a joiner that has joined has come to what `Joiner::handshake` computes when it runs alone on
      everything the hub has written: its own id, the 32 bytes and the name frame written, and all behind
      the accept byte unread. */
  lemma JoinedIsOutcome(p: Setup, run: seq<Action>)
    requires Exec(p, run).Some? && Exec(p, run).value.joiner.Joined?
    ensures var s := Exec(p, run).value;
      && NameFrame(p).Ok? && s.read + s.up == p.hello + NameFrame(p).value + s.later
      && Stream.JoinerOutcome(s.readDown + s.down, Stream.Closed, [], p.hello[..16], p.hello[16..32], p.name)
         == Stream.JoinerVerdict(Ok(ToBase58(p.hello[16..32])), p.hello + NameFrame(p).value, s.down)
  {
    hide Exec, Inv, Stream.JoinerOutcome, NameFrame;
    InvHolds(p, run);
    OutcomeOfJoined(p, Exec(p, run).value);
  }

  /** Until a side has succeeded it can fail at any time, and then the other may still go on. */
  lemma MayFail(p: Setup, run: seq<Action>)
    requires Exec(p, run).Some?
    ensures var s := Exec(p, run).value;
      && Exec(p, run + [HubTimeout]) == (if s.hub.Admitted? then None else Some(s.(hub := HubFailed)))
      && Exec(p, run + [JoinerTimeout]) == (if s.joiner.Joined? then None else Some(s.(joiner := JoinerFailed)))
  {
    hide Exec;
    OneMore(p, run, HubTimeout);
    OneMore(p, run, JoinerTimeout);
  }

  /** Once it has succeeded, and not before, a side may write whatever it likes. */
  lemma MayWrite(p: Setup, run: seq<Action>, bytes: Bytes)
    requires Exec(p, run).Some?
    ensures var s := Exec(p, run).value;
      && Exec(p, run + [SendLater(bytes)])
         == (if s.joiner.Joined? then Some(s.(up := s.up + bytes, later := s.later + bytes)) else None)
      && Exec(p, run + [WriteLater(bytes)])
         == (if s.hub.Admitted? then Some(s.(down := s.down + bytes, laterDown := s.laterDown + bytes)) else None)
  {
    hide Exec;
    OneMore(p, run, SendLater(bytes));
    OneMore(p, run, WriteLater(bytes));
  }

  lemma OneMore(p: Setup, run: seq<Action>, a: Action)
    requires Exec(p, run).Some?
    ensures var s := Exec(p, run).value;
      Exec(p, run + [a]) == if Enabled(s, a) then Some(Apply(p, s, a)) else None
  {
    hide Enabled, Apply;
    assert (run + [a])[..|run|] == run;
  }

  /** Whatever the hub sends, the joiner goes on to its name exactly on a zero byte, if its name encodes. */
  lemma AnswerExactly(p: Setup, s: State)
    requires s.joiner == AwaitAnswer && s.down != []
    ensures var t := Apply(p, s, TakeAnswer);
      if s.down[0] == 0 && NameFrame(p).Ok? then t.joiner == Naming(NameFrame(p).value) else t.joiner == JoinerFailed
  {
    hide NameFrame;
  }

  lemma OutcomeOfJoined(p: Setup, s: State)
    requires Inv(p, s) && s.joiner.Joined?
    ensures NameFrame(p).Ok? && s.read + s.up == p.hello + NameFrame(p).value + s.later
    ensures Stream.JoinerOutcome(s.readDown + s.down, Stream.Closed, [], p.hello[..16], p.hello[16..32], p.name)
         == Stream.JoinerVerdict(Ok(ToBase58(p.hello[16..32])), p.hello + NameFrame(p).value, s.down)
  {
    hide Stream.JoinerOutcome, ToBase58, HubRead, Wire.EncodeMessage;
    assert p.hello[..16] + p.hello[16..32] == p.hello;
    Stream.JoinerAccepts(s.down, Stream.Closed, [], p.hello[..16], p.hello[16..32], p.name);
  }

  /** Either side succeeds only with a nonce not used before. */
  lemma UsedNonceRefused(p: Setup, run: seq<Action>)
    requires Exec(p, run).Some?
    requires Exec(p, run).value.joiner.Joined? || Exec(p, run).value.hub.Admitted?
    ensures p.hello[..16] !in p.used
  {
    InvHolds(p, run);
    var s := Exec(p, run).value;
    hide Exec;
    assert (s.readDown + s.down)[0] == 0;
  }

  // ---- progress ----

  predicate Timely(a: Action) { !a.JoinerTimeout? && !a.HubTimeout? }

  /** A step of the handshake itself rather than of what follows it. */
  predicate Protocol(a: Action) { Timely(a) && !a.SendLater? && !a.WriteLater? }

  /** No side has failed. */
  predicate Healthy(s: State) { !s.joiner.JoinerFailed? && !s.hub.HubFailed? }

  /** Bytes still to be written and read, and decisions still to be taken. */
  function Rank(p: Setup, s: State): int {
    var f := |Frame(p)|;
    (match s.joiner
     case Greeting(left) => |left| + 1 + f
     case AwaitAnswer => 1 + f
     case Naming(left) => |left|
     case Joined => 0
     case JoinerFailed => 0)
    + (match s.hub
       case Hearing(buf) => HELLO - |buf| + 2 + f
       case Judging => 2 + f
       case Answering => 1 + f
       case Listening(buf) => f - |buf|
       case Admitted(_, _) => 0
       case HubFailed => 0)
  }

  lemma ListenLowers(p: Setup, s: State, n: nat)
    requires Inv(p, s) && Enabled(s, Listen(n))
    ensures Rank(p, Apply(p, s, Listen(n))) < Rank(p, s)
    ensures Healthy(s) ==> Healthy(Apply(p, s, Listen(n)))
  {
    ListenKeeps(p, s, n);
    ListenOnly(p, s, n);
    hide Inv, Apply, NameFrame, Frame, ToBase58, Heard, Need, TakeAnswerStep, Wire.TakeFrame, Wire.EncodeMessage;
  }

  lemma ListenOnly(p: Setup, s: State, n: nat)
    requires Enabled(s, Listen(n))
    ensures Apply(p, s, Listen(n)).joiner == s.joiner
  {
    hide Heard, Need, TakeAnswerStep, NameFrame;
  }

  /** With a fresh nonce and a name that encodes, a timely step keeps both sides healthy, and a step of
      the handshake lowers the rank. */
  lemma StepLowers(p: Setup, s: State, a: Action)
    requires Inv(p, s) && Enabled(s, a) && Timely(a) && Healthy(s)
    requires p.hello[..16] !in p.used && NameFrame(p).Ok?
    ensures Healthy(Apply(p, s, a))
    ensures Protocol(a) ==> Rank(p, Apply(p, s, a)) < Rank(p, s)
    ensures !Protocol(a) ==> Rank(p, Apply(p, s, a)) == Rank(p, s)
  {
    if a.Listen? {
      ListenLowers(p, s, a.n);
    } else if a.TakeAnswer? {
      AnswerIsYes(p, s);
      hide ToBase58, Wire.EncodeMessage;
    } else {
      RestLowers(p, s, a);
    }
  }

  lemma RestLowers(p: Setup, s: State, a: Action)
    requires Inv(p, s) && Enabled(s, a) && Timely(a) && Healthy(s) && !a.Listen? && !a.TakeAnswer?
    requires p.hello[..16] !in p.used
    ensures Healthy(Apply(p, s, a))
    ensures Protocol(a) ==> Rank(p, Apply(p, s, a)) < Rank(p, s)
    ensures !Protocol(a) ==> Rank(p, Apply(p, s, a)) == Rank(p, s)
  {
    hide NameFrame, Frame, ToBase58, Heard, Need, TakeAnswerStep, Wire.TakeFrame, Wire.EncodeMessage;
  }

  lemma AnswerIsYes(p: Setup, s: State)
    requires Inv(p, s) && Healthy(s) && s.joiner.AwaitAnswer? && s.down != []
    ensures s.down[0] == 0
  {
    hide NameFrame, Frame, ToBase58;
    assert (s.readDown + s.down)[0] == s.down[0];
  }

  /** The next step of the handshake: whichever side is not waiting for bytes. */
  function NextStep(s: State): Action {
    if s.joiner.Greeting? then Greet(|s.joiner.left|)
    else if s.joiner.Naming? then SendName(|s.joiner.left|)
    else if s.hub.Hearing? then Hear(|s.up|)
    else if s.hub.Judging? then Judge
    else if s.hub.Answering? then Answer
    else if s.joiner.AwaitAnswer? then TakeAnswer
    else Listen(1)
  }

  /** No reachable healthy state is stuck: until both sides have succeeded a step of the handshake is
      enabled. */
  lemma NeverStuck(p: Setup, s: State)
    requires Inv(p, s) && Healthy(s) && !(s.joiner.Joined? && s.hub.Admitted?)
    requires p.hello[..16] !in p.used && NameFrame(p).Ok?
    ensures Protocol(NextStep(s)) && Enabled(s, NextStep(s))
  {
    hide NameFrame, Frame, ToBase58, Need;
    if s.joiner.AwaitAnswer? && (s.hub.Listening? || s.hub.Admitted?) {
      assert |s.readDown + s.down| == |[0] + s.laterDown|;
    } else if s.joiner.Joined? && s.hub.Listening? {
      MoreToHear(p, s);
    }
  }

  /** A hub that listens to a joiner that has sent its name has bytes to read. */
  lemma MoreToHear(p: Setup, s: State)
    requires Inv(p, s) && s.joiner.Joined? && s.hub.Listening?
    ensures |s.up| > 0 && Need(s.hub.buf) > 0
  {
    NameFrameReads(p);
    NeedOfPart(Frame(p), s.hub.buf);
    hide NameFrame, Frame, ToBase58, Need;
    assert |s.read + s.up| == |p.hello + Frame(p) + s.later|;
  }

  function ProtocolSteps(run: seq<Action>): nat {
    if run == [] then 0 else ProtocolSteps(run[..|run| - 1]) + (if Protocol(run[|run| - 1]) then 1 else 0)
  }

  /** Without timeouts, with a fresh nonce and a name that encodes: neither side ever fails, at most
      67 + 2 |frame| handshake steps are taken, and until both have succeeded another one is enabled.
      So every such run that goes on ends with both admitted. */
  lemma {:induction false} Completes(p: Setup, run: seq<Action>)
    requires Exec(p, run).Some? && (forall i :: 0 <= i < |run| ==> Timely(run[i]))
    requires p.hello[..16] !in p.used && NameFrame(p).Ok?
    ensures var s := Exec(p, run).value;
      && Healthy(s)
      && ProtocolSteps(run) + Rank(p, s) <= 67 + 2 * |Frame(p)|
      && (!(s.joiner.Joined? && s.hub.Admitted?) ==> Protocol(NextStep(s)) && Enabled(s, NextStep(s)))
  {
    hide Enabled, Apply, Inv, NameFrame, Frame, NextStep;
    var s := Exec(p, run).value;
    if run != [] {
      var before := run[..|run| - 1];
      Completes(p, before);
      InvHolds(p, before);
      StepLowers(p, Exec(p, before).value, run[|run| - 1]);
    }
    InvHolds(p, run);
    if !(s.joiner.Joined? && s.hub.Admitted?) { NeverStuck(p, s); }
  }
}
