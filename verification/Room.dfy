/** The host room of `room.rs` as a transition system. Every lock-protected block, channel operation
    and `select!` arm of the main loop, the accept loop and each connection's handler, reader and
    writer is one step; any interleaving is allowed, and timeouts and aborts may strike wherever the
    code has them. Two writes have neither, the reject byte and the join notice: they go on for as long
    as the stream neither takes their bytes nor breaks, which are steps of its own. Fields marked
    "history" only record what happened. */
module Room {
  import opened Basics
  import opened Json
  import Codecs
  import Wire

  const EVENT_CAP := 256
  const MSG_CAP := 128
  const SEND_CAP := 64
  const RING := 256
  const HELLO := 32

  // ---- events ----

  datatype PeerInfo = PeerInfo(id: string, name: string)

  datatype Event =
    | BootstrapProgress(percent: int)
    | RoomReady
    | RoomError
    | RoomClosed
    | PeerJoin(info: PeerInfo)
    | PeerLeave(id: string)
    | Message(from: string, name: string, text: string)

  datatype Origin = Host | Peer(conn: nat)

  /** History of one send into the event channel: who sent what, whether it went in, and how many
      events were waiting. */
  datatype Attempt = Attempt(origin: Origin, event: Event, accepted: bool, backlog: nat)

  // ---- connections ----

  /** Where a connection's handler stands. */
  datatype Phase =
    | AwaitHello | Checking | Accepting | AwaitName      // hub_handshake
    | Rejecting                                          // its reject byte, under the nonce lock
    | Registering | Announcing | Notifying               // insert, PeerJoin, join notice
    | Starting | Subscribing | Running                   // reader, subscription and writer, select!
    | Removing | Leaving | Gone                          // remove, PeerLeave, finished
    | Failed

  datatype Reader = NoReader | Reading | Passing(msg: WireMessage) | ReaderDone

  datatype Writer = NoWriter | Idle | Sending(frame: Bytes) | WriterDone

  /** History of what became of one broadcast chat on its way to one peer. */
  datatype Fate = Written | TooLarge | Overwritten(tail: nat) | WriteFailed

  /** `input` is everything the peer has sent and `taken` how much of it has been read; `output` is
      everything the stream has taken for the peer, `unsent` what it has not yet taken of a write that
      has no time limit, and `broken` tells that it fails writes. The writer stands at chat number
      `start + |fates|`. History: `burned` (the nonce passed the check), `base` (where the reader began),
      `frames` (what it read), `notice` (the join notice once it is out), `scrap` (the piece of a frame
      at the end of `output`), `start`, `fates`. */
  datatype Conn = Conn(
    phase: Phase, name: string,
    input: Bytes, taken: nat, base: nat, frames: seq<Bytes>,
    output: Bytes, scrap: Option<Bytes>, notice: seq<Bytes>, unsent: Bytes, broken: bool,
    burned: bool,
    reader: Reader,
    writer: Writer, start: nat, fates: seq<Fate>)

  const FRESH_CONN := Conn(AwaitHello, "", [], 0, 0, [], [], None, [], [], false, false, NoReader, NoWriter, 0, [])

  function Nonce(k: Conn): Bytes
    requires |k.input| >= HELLO
  {
    k.input[..16]
  }

  function Disc(k: Conn): Bytes
    requires |k.input| >= HELLO
  {
    k.input[16..HELLO]
  }

  function Id(k: Conn): string
    requires |k.input| >= HELLO
  {
    Codecs.ToBase58(Disc(k))
  }

  function Info(k: Conn): PeerInfo
    requires |k.input| >= HELLO
  {
    PeerInfo(Id(k), k.name)
  }

  // ---- steps inside one connection ----

  datatype Local =
    | Receive(bytes: Bytes)                     // more bytes arrive from the peer
    | ReadHello
    | Acknowledge(written: bool, flushed: bool)
    | ReadName
    | GiveUp                                    // a read of the handshake fails or times out
    | Take(n: nat)                              // the stream takes `n` bytes of an unlimited write
    | Break                                     // the stream breaks
    | Reject                                    // the reject byte is out, or its write has failed
    | Notice                                    // the join notice is out, or has failed, or never was
    | StartReader
    | Subscribe
    | Fetch                                     // the reader gets one frame
    | ReaderEnds                                // end of stream, error, timeout or abort
    | Wake                                      // the handler's select!
    | NextChat                                  // the writer polls its subscription
    | WriteChat(count: nat, stop: bool)         // its write ends after `count` bytes
    | WriterEnds                                // abort, or every sender is gone

  /** What `read_frame` makes of the unread input; a short read means it is still waiting. */
  function Unread(k: Conn): Wire.Taken
    requires k.taken <= |k.input|
  {
    Wire.TakeFrame(k.input[k.taken..])
  }

  predicate Waiting(t: Wire.Taken) {
    t.result == Err(WireFault(HeaderRead)) || t.result == Err(WireFault(PayloadRead))
  }

  function NoticeFor(name: string): Result<Bytes, ChatError> {
    Wire.EncodeMessage(SystemMessage(name + " joined"))
  }

  function NextPos(k: Conn): nat { k.start + |k.fates| }

  predicate LocalEnabled(k: Conn, l: Local, chats: seq<WireMessage>, signalled: bool)
    requires k.taken <= |k.input|
  {
    match l
    case Receive(_) => true
    case ReadHello => k.phase == AwaitHello && |k.input| >= HELLO
    case Acknowledge(written, flushed) => k.phase == Accepting && (flushed ==> written)
    case ReadName => k.phase == AwaitName && !Waiting(Unread(k))
    case GiveUp => k.phase == AwaitHello || k.phase == AwaitName
    case Take(n) => 0 < n <= |k.unsent| && !k.broken
    case Break => true
    case Reject => k.phase == Rejecting && (k.unsent == [] || k.broken)
    case Notice => k.phase == Notifying && (k.unsent == [] || k.broken)
    case StartReader => k.phase == Starting
    case Subscribe => k.phase == Subscribing
    case Fetch => k.reader == Reading && !Waiting(Unread(k))
    case ReaderEnds => k.reader.Reading? || k.reader.Passing?
    case Wake => k.phase == Running && (k.reader == ReaderDone || signalled)
    case NextChat => k.writer == Idle && NextPos(k) < |chats|
    case WriteChat(count, _) =>
      k.writer.Sending? && count <= |k.writer.frame| && (k.scrap.Some? ==> count == 0)
    case WriterEnds => k.writer == Idle
  }

  function LocalStep(k: Conn, l: Local, chats: seq<WireMessage>): Conn
    requires k.taken <= |k.input| && LocalEnabled(k, l, chats, true)
  {
    match l
    case Receive(bytes) => k.(input := k.input + bytes)
    case ReadHello => k.(phase := Checking, taken := HELLO)
    case Acknowledge(written, flushed) =>
      k.(output := if written then [0] else [], phase := if flushed then AwaitName else Failed)
    case ReadName => ReadNameStep(k)
    case GiveUp => k.(phase := Failed)
    case Take(n) => TakeStep(k, n)
    case Break => k.(broken := true)
    case Reject => k.(phase := Failed, unsent := [])
    case Notice => NoticeStep(k)
    case StartReader => k.(phase := Subscribing, reader := Reading)
    case Subscribe => k.(phase := Running, writer := Idle, start := |chats|)
    case Fetch => FetchStep(k)
    case ReaderEnds => k.(reader := ReaderDone)
    case Wake => k.(phase := Removing)
    case NextChat => NextChatStep(k, chats)
    case WriteChat(count, stop) => WriteChatStep(k, count, stop)
    case WriterEnds => k.(writer := WriterDone)
  }

  function ReadNameStep(k: Conn): Conn
    requires k.taken <= |k.input|
  {
    match Unread(k).result
    case Err(_) => k.(phase := Failed)
    case Ok(f) =>
      match Wire.DecodeMessage(f)
      case Err(_) => k.(phase := Failed)
      case Ok(m) => k.(phase := Registering, name := m.text, taken := k.taken + |f|, base := k.taken + |f|)
  }

  /** The piece of a frame at the end of the output. */
  function Torn(k: Conn): Bytes {
    match k.scrap
    case None => []
    case Some(p) => p
  }

  function TakeStep(k: Conn, n: nat): Conn
    requires n <= |k.unsent|
  {
    var t := k.(output := k.output + k.unsent[..n], unsent := k.unsent[n..]);
    var piece := Torn(k) + k.unsent[..n];
    if k.phase != Notifying then t
    else if n == |k.unsent| then t.(notice := [piece], scrap := None)
    else t.(scrap := Some(piece))
  }

  function NoticeStep(k: Conn): Conn {
    k.(phase := Starting, unsent := [], scrap := if k.unsent == [] then k.scrap else Some(Torn(k)))
  }

  /** What there is to write of the join notice: nothing if it does not encode. */
  function NoticeBytes(name: string): Bytes {
    match NoticeFor(name)
    case Ok(f) => f
    case Err(_) => []
  }

  /** `hub_reader_task`: pings are dropped, a frame that does not decode ends the reader, and anything
      else is to be passed on. */
  function FetchStep(k: Conn): Conn
    requires k.taken <= |k.input|
  {
    match Unread(k).result
    case Err(_) => k.(reader := ReaderDone)
    case Ok(f) =>
      match Wire.DecodeMessage(f)
      case Err(_) => k.(reader := ReaderDone)
      case Ok(m) =>
        k.(taken := k.taken + |f|, frames := k.frames + [f], reader := if m.kind == Ping then Reading else Passing(m))
  }

  function Repeat(fate: Fate, n: nat): (fs: seq<Fate>)
    ensures |fs| == n && forall i :: 0 <= i < n ==> fs[i] == fate
  {
    if n == 0 then [] else Repeat(fate, n - 1) + [fate]
  }

  /** The broadcast receiver: a writer more than 256 chats behind loses the oldest, a chat that does
      not encode is skipped, and any other chat is taken for writing. */
  function NextChatStep(k: Conn, chats: seq<WireMessage>): Conn
    requires NextPos(k) < |chats|
  {
    if |chats| - NextPos(k) > RING then
      k.(fates := k.fates + Repeat(Overwritten(|chats|), |chats| - RING - NextPos(k)))
    else match Wire.EncodeMessage(chats[NextPos(k)])
      case Ok(f) => k.(writer := Sending(f))
      case Err(_) => k.(fates := k.fates + [TooLarge])
  }

  function WriteChatStep(k: Conn, count: nat, stop: bool): Conn
    requires k.writer.Sending? && count <= |k.writer.frame|
  {
    var f := k.writer.frame;
    var after := if stop then WriterDone else Idle;
    if count == |f| && k.scrap.None? then
      k.(output := k.output + f, fates := k.fates + [Written], writer := after)
    else
      k.(output := k.output + f[..count], fates := k.fates + [WriteFailed], writer := after,
         scrap := if k.scrap.None? then Some(f[..count]) else k.scrap)
  }

  // ---- what the larger steps may change ----

  lemma NameFields(k: Conn)
    requires k.taken <= |k.input|
    ensures var t := ReadNameStep(k);
      && t == k.(phase := t.phase, name := t.name, taken := t.taken, base := t.base)
      && (t.phase == Failed || t.phase == Registering)
  {
    hide Wire.TakeFrame, Wire.DecodeMessage;
  }

  lemma FetchFields(k: Conn)
    requires k.taken <= |k.input|
    ensures var t := FetchStep(k);
      t == k.(taken := t.taken, frames := t.frames, reader := t.reader) && !t.reader.NoReader?
  {
    hide Wire.TakeFrame, Wire.DecodeMessage;
  }

  lemma NextChatFields(k: Conn, chats: seq<WireMessage>)
    requires NextPos(k) < |chats|
    ensures var t := NextChatStep(k, chats); t == k.(writer := t.writer, fates := t.fates)
    ensures k.writer != NoWriter ==> NextChatStep(k, chats).writer != NoWriter
  {
    hide Wire.EncodeMessage;
  }

  lemma WriteChatFields(k: Conn, count: nat, stop: bool)
    requires k.writer.Sending? && count <= |k.writer.frame|
    ensures var t := WriteChatStep(k, count, stop);
      t == k.(output := t.output, fates := t.fates, writer := t.writer, scrap := t.scrap) && t.writer != NoWriter
      && k.output <= t.output
  {
  }

  lemma TakeFields(k: Conn, n: nat)
    requires n <= |k.unsent|
    ensures var t := TakeStep(k, n);
      t == k.(output := t.output, unsent := k.unsent[n..], notice := t.notice, scrap := t.scrap)
  {
  }

  lemma NoticeFields(k: Conn)
    ensures var t := NoticeStep(k); t == k.(phase := Starting, unsent := [], scrap := t.scrap)
  {
  }

  lemma StepFields(k: Conn, l: Local, chats: seq<WireMessage>)
    requires k.taken <= |k.input| && LocalEnabled(k, l, chats, true)
    ensures l.ReadName? ==> var t := ReadNameStep(k); (
      && t == k.(phase := t.phase, name := t.name, taken := t.taken, base := t.base)
      && (t.phase == Failed || t.phase == Registering))
    ensures l.Fetch? ==> var t := FetchStep(k); (
      t == k.(taken := t.taken, frames := t.frames, reader := t.reader) && !t.reader.NoReader?)
    ensures l.NextChat? ==> var t := NextChatStep(k, chats); (
      t == k.(writer := t.writer, fates := t.fates) && t.writer != NoWriter)
    ensures l.WriteChat? ==> var t := WriteChatStep(k, l.count, l.stop); (
      && t == k.(output := t.output, fates := t.fates, writer := t.writer, scrap := t.scrap) && t.writer != NoWriter
      && k.output <= t.output)
    ensures l.Take? ==> var t := TakeStep(k, l.n); (
      t == k.(output := t.output, unsent := k.unsent[l.n..], notice := t.notice, scrap := t.scrap))
    ensures l.Notice? ==> var t := NoticeStep(k); t == k.(phase := Starting, unsent := [], scrap := t.scrap)
  {
    hide ReadNameStep, FetchStep, NextChatStep, WriteChatStep, TakeStep, NoticeStep, Wire.TakeFrame;
    match l
    case ReadName => NameFields(k);
    case Fetch => FetchFields(k);
    case NextChat => NextChatFields(k, chats);
    case WriteChat(count, stop) => WriteChatFields(k, count, stop);
    case Take(n) => TakeFields(k, n);
    case Notice => NoticeFields(k);
    case _ =>
  }

  /** How a step may move its handler from phase to phase. */
  predicate Moves(l: Local, from: Phase, to: Phase) {
    match l
    case ReadHello => from == AwaitHello && to == Checking
    case Acknowledge(_, _) => from == Accepting && (to == AwaitName || to == Failed)
    case ReadName => from == AwaitName && (to == Registering || to == Failed)
    case GiveUp => (from == AwaitHello || from == AwaitName) && to == Failed
    case Reject => from == Rejecting && to == Failed
    case Notice => from == Notifying && to == Starting
    case StartReader => from == Starting && to == Subscribing
    case Subscribe => from == Subscribing && to == Running
    case Wake => from == Running && to == Removing
    case _ => to == from
  }

  lemma LocalMoves(k: Conn, l: Local, chats: seq<WireMessage>, signalled: bool)
    requires k.taken <= |k.input| && LocalEnabled(k, l, chats, signalled)
    ensures Moves(l, k.phase, LocalStep(k, l, chats).phase)
    ensures !l.ReadName? ==> LocalStep(k, l, chats).name == k.name
  {
    hide Wire.TakeFrame;
    StepFields(k, l, chats);
    hide ReadNameStep, FetchStep, NextChatStep, WriteChatStep, TakeStep, NoticeStep;
  }

  // ---- the whole room ----

  /** A message in the channel from the readers to the main loop, and the connection it came from. */
  datatype Item = Item(conn: nat, from: string, msg: WireMessage)

  datatype Main = Launching | Refused | Serving | Ended

  /** `queue` is the event channel; `msgs` the channel from the readers; `texts` the channel from the
      room handles; `chats` all broadcast chats, of which the ring keeps the last 256. History: `boot`,
      the progress events the bootstrap left in the event channel, `consumed` events, `attempts`, the
      `handled` items and all texts ever `pushed`. */
  datatype State = State(
    conns: seq<Conn>,
    nonces: set<Bytes>,
    peers: map<string, PeerInfo>,
    queue: seq<Event>, listening: bool, boot: seq<Event>, consumed: seq<Event>, attempts: seq<Attempt>,
    msgs: seq<Item>, handled: seq<Item>,
    texts: seq<string>, textsOpen: bool, pushed: seq<string>,
    chats: seq<WireMessage>,
    signalled: bool, accepting: bool, main: Main, hostName: string)

  function Init(hostName: string): State {
    State([], {}, map[], [], true, [], [], [], [], [], [], true, [], [], false, false, Launching, hostName)
  }

  datatype Action =
    | Do(c: nat, step: Local)
    | CheckNonce(c: nat) | Insert(c: nat) | Announce(c: nat) | Pass(c: nat) | Remove(c: nat) | Leave(c: nat)
    | Progress(percent: int) | Launch(ok: bool) | Admit | StopAccepting
    | PushText(text: string) | CloseTexts | Signal | Consume | StopListening
    | MainClose | MainText | MainTextsClosed | MainMessage

  predicate Valid(s: State) { forall c :: 0 <= c < |s.conns| ==> s.conns[c].taken <= |s.conns[c].input| }

  predicate At(s: State, c: nat, phase: Phase) {
    c < |s.conns| && s.conns[c].phase == phase && |s.conns[c].input| >= HELLO
  }

  predicate CanSend(s: State) { !s.listening || |s.queue| < EVENT_CAP }

  /** A handler holds the nonce lock across its reject write. */
  predicate Locked(conns: seq<Conn>) { exists i :: 0 <= i < |conns| && conns[i].phase == Rejecting }

  predicate Enabled(s: State, a: Action)
    requires Valid(s)
  {
    match a
    case Do(c, l) => c < |s.conns| && LocalEnabled(s.conns[c], l, s.chats, s.signalled)
    case CheckNonce(c) => At(s, c, Checking) && !Locked(s.conns)
    case Insert(c) => At(s, c, Registering)
    case Announce(c) => At(s, c, Announcing)
    case Pass(c) =>
      && c < |s.conns| && s.conns[c].reader.Passing? && |s.conns[c].input| >= HELLO
      && (s.main == Serving ==> |s.msgs| < MSG_CAP)
    case Remove(c) => At(s, c, Removing)
    case Leave(c) => At(s, c, Leaving)
    case Progress(_) => s.main == Launching && CanSend(s)
    case Launch(_) => s.main == Launching && CanSend(s)
    case Admit => s.accepting
    case StopAccepting => s.accepting
    case PushText(_) => s.textsOpen && |s.texts| < SEND_CAP
    case CloseTexts => s.textsOpen
    case Signal => true
    case Consume => s.listening && s.queue != []
    case StopListening => s.listening
    case MainClose => (s.main == Serving || s.main == Refused) && s.signalled
    case MainText => (s.main == Serving || s.main == Refused) && s.texts != []
    case MainTextsClosed => (s.main == Serving || s.main == Refused) && !s.textsOpen && s.texts == []
    case MainMessage => s.main == Serving && s.msgs != []
  }

  /** `try_send` into the event channel: the event is dropped when 256 wait or nobody listens. */
  function Emit(s: State, origin: Origin, e: Event): State {
    var accepted := s.listening && |s.queue| < EVENT_CAP;
    s.(attempts := s.attempts + [Attempt(origin, e, accepted, |s.queue|)],
       queue := if accepted then s.queue + [e] else s.queue)
  }

  /** The connection a step belongs to. */
  function Target(a: Action): Option<nat> {
    match a
    case Do(c, _) => Some(c)
    case CheckNonce(c) => Some(c)
    case Insert(c) => Some(c)
    case Announce(c) => Some(c)
    case Pass(c) => Some(c)
    case Remove(c) => Some(c)
    case Leave(c) => Some(c)
    case _ => None
  }

  /** What a step does to its connection. A nonce already used is answered with a reject byte. */
  function ConnAfter(s: State, a: Action, k: Conn): Conn
    requires a.Do? ==> k.taken <= |k.input| && LocalEnabled(k, a.step, s.chats, s.signalled)
    requires a.CheckNonce? ==> |k.input| >= HELLO
  {
    match a
    case Do(_, l) => LocalStep(k, l, s.chats)
    case CheckNonce(_) =>
      if Nonce(k) in s.nonces then k.(phase := Rejecting, unsent := [1]) else k.(phase := Accepting, burned := true)
    case Insert(_) => k.(phase := Announcing)
    case Announce(_) => k.(phase := Notifying, unsent := NoticeBytes(k.name))
    case Pass(_) => k.(reader := Reading)
    case Remove(_) => k.(phase := Leaving)
    case Leave(_) => k.(phase := Gone)
    case _ => k
  }

  function ConnsAfter(s: State, a: Action): seq<Conn>
    requires Valid(s) && Enabled(s, a)
  {
    match Target(a)
    case Some(c) => s.conns[c := ConnAfter(s, a, s.conns[c])]
    case None => if a.Admit? then s.conns + [FRESH_CONN] else s.conns
  }

  /** What a step does to everything shared. */
  function SharedAfter(s: State, a: Action): State
    requires Valid(s) && Enabled(s, a)
  {
    match a
    case Do(_, _) => s
    case CheckNonce(c) => s.(nonces := s.nonces + {Nonce(s.conns[c])})
    case Insert(c) => s.(peers := s.peers[Id(s.conns[c]) := Info(s.conns[c])])
    case Announce(c) => Emit(s, Peer(c), PeerJoin(Info(s.conns[c])))
    case Pass(c) => PassStep(s, c)
    case Remove(c) => s.(peers := s.peers - {Id(s.conns[c])})
    case Leave(c) => Emit(s, Peer(c), PeerLeave(Id(s.conns[c])))
    case Progress(percent) => ProgressStep(s, BootstrapProgress(percent))
    case Launch(ok) =>
      if ok then Emit(s, Host, RoomReady).(main := Serving, accepting := true)
      else Emit(s, Host, RoomError).(main := Refused)
    case Admit => s
    case StopAccepting => s.(accepting := false)
    case PushText(text) => s.(texts := s.texts + [text], pushed := s.pushed + [text])
    case CloseTexts => s.(textsOpen := false)
    case Signal => s.(signalled := true)
    case Consume => s.(queue := s.queue[1..], consumed := s.consumed + [s.queue[0]])
    case StopListening => s.(listening := false)
    case MainClose => Emit(s, Host, RoomClosed).(main := Ended)
    case MainText => MainTextStep(s)
    case MainTextsClosed => s.(main := Ended)
    case MainMessage => MainMessageStep(s)
  }

  /** The bootstrap passes an event on, if anyone listens. */
  function ProgressStep(s: State, e: Event): State {
    if s.listening then s.(queue := s.queue + [e], boot := s.boot + [e]) else s
  }

  /** The reader's send to the main loop. Once the main loop is over nobody receives any more. */
  function PassStep(s: State, c: nat): State
    requires c < |s.conns| && s.conns[c].reader.Passing? && |s.conns[c].input| >= HELLO
  {
    if s.main == Serving then s.(msgs := s.msgs + [Item(c, Id(s.conns[c]), s.conns[c].reader.msg)]) else s
  }

  function MainTextStep(s: State): State
    requires s.texts != []
  {
    var t := s.(texts := s.texts[1..]);
    if s.main != Serving then t
    else
      Emit(t, Host, Message("[hub]", s.hostName, s.texts[0]))
        .(chats := s.chats + [ChatMessage(s.hostName, s.texts[0])])
  }

  /** Only chats become events; other kinds are dropped. */
  function MainMessageStep(s: State): State
    requires s.msgs != []
  {
    var i := s.msgs[0];
    var t := s.(msgs := s.msgs[1..], handled := s.handled + [i]);
    if i.msg.kind == Chat then Emit(t, Peer(i.conn), Message(i.from, i.msg.name, i.msg.text)) else t
  }

  function Apply(s: State, a: Action): State
    requires Valid(s) && Enabled(s, a)
  {
    SharedAfter(s, a).(conns := ConnsAfter(s, a))
  }

  // ---- runs ----

  lemma ValidStep(s: State, a: Action)
    requires Valid(s) && Enabled(s, a)
    ensures Valid(Apply(s, a))
  {
    hide LocalStep, LocalEnabled, SharedAfter, Locked, NoticeBytes, Nonce;
    if a.Do? { LocalValid(s.conns[a.c], a.step, s.chats, s.signalled); }
  }

  lemma LocalValid(k: Conn, l: Local, chats: seq<WireMessage>, signalled: bool)
    requires k.taken <= |k.input| && LocalEnabled(k, l, chats, signalled)
    ensures LocalStep(k, l, chats).taken <= |LocalStep(k, l, chats).input|
  {
    hide Wire.DecodeMessage, Wire.EncodeMessage, Wire.TakeFrame;
    if l.Fetch? || l.ReadName? { TakenFits(k); }
  }

  lemma TakenFits(k: Conn)
    requires k.taken <= |k.input|
    ensures Unread(k).result.Ok? ==> k.taken + |Unread(k).result.value| <= |k.input|
    ensures Unread(k).result.Ok? ==> k.input[k.taken..k.taken + |Unread(k).result.value|] == Unread(k).result.value
  {
    if Unread(k).result.Ok? {
      var f := Unread(k).result.value;
      assert k.input[k.taken..] == f + Unread(k).rest;
      assert k.input[k.taken..][..|f|] == f;
    }
  }

  /** The state a sequence of steps leads to, if each step is enabled where it is taken. */
  function Exec(hostName: string, run: seq<Action>): (r: Option<State>)
    ensures r.Some? ==> Valid(r.value)
  {
    if run == [] then Some(Init(hostName))
    else match Exec(hostName, run[..|run| - 1])
      case None => None
      case Some(s) =>
        var a := run[|run| - 1];
        if !Enabled(s, a) then None
        else
          ValidStep(s, a);
          Some(Apply(s, a))
  }

  lemma ExecExtend(hostName: string, run: seq<Action>, a: Action)
    requires Exec(hostName, run).Some? && Enabled(Exec(hostName, run).value, a)
    ensures Exec(hostName, run + [a]) == Some(Apply(Exec(hostName, run).value, a))
  {
    assert (run + [a])[..|run|] == run;
  }

  /** The last step of a nonempty run. */
  lemma ExecLast(hostName: string, run: seq<Action>)
    requires run != [] && Exec(hostName, run).Some?
    ensures Exec(hostName, run[..|run| - 1]).Some?
    ensures Enabled(Exec(hostName, run[..|run| - 1]).value, run[|run| - 1])
    ensures Exec(hostName, run).value == Apply(Exec(hostName, run[..|run| - 1]).value, run[|run| - 1])
  {
  }
}
