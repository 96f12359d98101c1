/** The tasks of `hub.rs` together: what the readers and the hub put on the broadcast channel and into the
    peers' queues, and where every chat that a peer reads came from. */
module HubRelay {
  import opened Basics
  import opened Json
  import opened Hub
  import Wire

  /** `input` is everything the peer will send, of whose frames its reader has taken `read`; `queued` is
      all that was ever put into its queue. */
  datatype Peer = Peer(id: string, name: string, input: Bytes, read: nat, done: bool, here: bool, queued: seq<Bytes>)

  /** History: which frame of which peer a broadcast event stems from. */
  datatype Origin = Spoken(peer: nat, frame: nat) | OfHub

  datatype State = State(peers: seq<Peer>, events: seq<Event>, origins: seq<Origin>)

  const START := State([], [], [])

  datatype Action =
    | Join(id: string, name: string, input: Bytes) | Leave(p: nat)
    | Read(p: nat) | StopReading(p: nat)
    | Announce(text: string) | PingAll

  function FramesOf(peer: Peer): seq<Bytes> { Wire.TakeAll(peer.input).frames }

  predicate Enabled(s: State, a: Action) {
    match a
    case Leave(p) => p < |s.peers| && s.peers[p].here
    case Read(p) => p < |s.peers| && !s.peers[p].done && s.peers[p].read < |FramesOf(s.peers[p])|
    case StopReading(p) => p < |s.peers|
    case _ => true
  }

  /** An event goes onto the broadcast channel. */
  function Broadcast(s: State, e: Event, origin: Origin): State {
    s.(events := s.events + [e], origins := s.origins + [origin])
  }

  /** A frame goes into the queue of everyone present, if the message encodes. */
  function ToAll(peers: seq<Peer>, m: WireMessage): (qs: seq<Peer>)
    ensures |qs| == |peers|
  {
    seq(|peers|, i requires 0 <= i < |peers| =>
      if peers[i].here && Wire.EncodeMessage(m).Ok?
      then peers[i].(queued := peers[i].queued + [Wire.EncodeMessage(m).value]) else peers[i])
  }

  /** One turn of a reader: pings are answered, chats broadcast under the hub's name for the speaker. */
  function ReadStep(s: State, p: nat): State
    requires Enabled(s, Read(p))
  {
    var k := s.peers[p];
    match Wire.DecodeMessage(FramesOf(k)[k.read])
    case Err(_) => s.(peers := s.peers[p := k.(done := true)])
    case Ok(m) =>
      var pongs := if m.kind == Ping && Wire.EncodeMessage(PONG).Ok? then [Wire.EncodeMessage(PONG).value] else [];
      var t := s.(peers := s.peers[p := k.(read := k.read + 1, queued := k.queued + pongs)]);
      if m.kind == Chat then Broadcast(t, Message(k.id, k.name, m.text), Spoken(p, k.read)) else t
  }

  function Apply(s: State, a: Action): State
    requires Enabled(s, a)
  {
    match a
    case Join(id, name, input) =>
      Broadcast(s.(peers := s.peers + [Peer(id, name, input, 0, false, true, [])]), PeerJoin(id, name), OfHub)
    case Leave(p) =>
      Broadcast(s.(peers := s.peers[p := s.peers[p].(here := false)]), PeerLeave(s.peers[p].id), OfHub)
    case Read(p) => ReadStep(s, p)
    case StopReading(p) => s.(peers := s.peers[p := s.peers[p].(done := true)])
    case Announce(text) =>
      Broadcast(s.(peers := ToAll(s.peers, SystemMessage(text))), Message("[hub]", "[system]", text), OfHub)
    case PingAll => s.(peers := ToAll(s.peers, WireMessage(Ping, "", "")))
  }

  function Exec(run: seq<Action>): (r: Option<State>) {
    if run == [] then Some(START)
    else match Exec(run[..|run| - 1])
      case None => None
      case Some(s) => if Enabled(s, run[|run| - 1]) then Some(Apply(s, run[|run| - 1])) else None
  }

  // ---- what the channel and the queues hold ----

  /** The frame is a chat; its text. */
  predicate IsChat(f: Bytes) { Wire.DecodeMessage(f).Ok? && Wire.DecodeMessage(f).value.kind == Chat }

  function TextOf(f: Bytes): string
    requires IsChat(f)
  {
    Wire.DecodeMessage(f).value.text
  }

  /** An event is the chat of the frame it stems from, under its speaker's id and the hub's name for it;
      every other message is the hub's own. */
  predicate OriginTrue(peers: seq<Peer>, e: Event, o: Origin) {
    match o
    case OfHub => e.Message? ==> e.from == "[hub]" && e.name == "[system]"
    case Spoken(p, k) =>
      && p < |peers| && k < peers[p].read <= |FramesOf(peers[p])| && IsChat(FramesOf(peers[p])[k])
      && e == Message(peers[p].id, peers[p].name, TextOf(FramesOf(peers[p])[k]))
  }

  /** A frame whose message is no chat. */
  predicate NoChat(f: Bytes) {
    Wire.IsFrame(f) && Wire.DecodeMessage(f).Ok? && Wire.DecodeMessage(f).value.kind != Chat
  }

  predicate PeerFits(k: Peer) {
    k.read <= |FramesOf(k)| && forall i :: 0 <= i < |k.queued| ==> NoChat(k.queued[i])
  }

  /** The reader of peer `p` has got past its frame `k`, a chat. */
  predicate HasSaid(peers: seq<Peer>, p: nat, k: nat) {
    p < |peers| && k < peers[p].read && k < |FramesOf(peers[p])| && IsChat(FramesOf(peers[p])[k])
  }

  /** The channel has every chat read so far, of each peer in the order of its frames. */
  ghost predicate ChannelFits(s: State) {
    && |s.origins| == |s.events|
    && (forall i :: 0 <= i < |s.events| ==> OriginTrue(s.peers, s.events[i], s.origins[i]))
    && (forall i, j :: 0 <= i < j < |s.origins| ==> Ordered(s.origins[i], s.origins[j]))
    && (forall p: nat, k: nat :: HasSaid(s.peers, p, k) ==> Spoken(p, k) in s.origins)
  }

  predicate Ordered(o: Origin, later: Origin) {
    o.Spoken? && later.Spoken? && o.peer == later.peer ==> o.frame < later.frame
  }

  ghost predicate Fits(s: State) {
    ChannelFits(s) && forall p :: 0 <= p < |s.peers| ==> PeerFits(s.peers[p])
  }

  /** The peers go on: their names and what they send stay, and none has read less. */
  predicate GoOn(peers: seq<Peer>, later: seq<Peer>) {
    |peers| <= |later| && forall p :: 0 <= p < |peers| ==>
      && later[p].id == peers[p].id && later[p].name == peers[p].name && later[p].input == peers[p].input
      && peers[p].read <= later[p].read <= |FramesOf(later[p])|
  }

  lemma OriginStays(peers: seq<Peer>, later: seq<Peer>, e: Event, o: Origin)
    requires OriginTrue(peers, e, o) && GoOn(peers, later)
    ensures OriginTrue(later, e, o)
  {
    hide Wire.TakeAll, IsChat, TextOf;
  }

  lemma EncodedNoChat(m: WireMessage)
    requires m.kind != Chat && Wire.EncodeMessage(m).Ok?
    ensures NoChat(Wire.EncodeMessage(m).value)
  {
    Wire.EncodingIsFrame(m);
    Wire.MessageRoundTrip(m);
  }

  // ---- steps ----

  lemma ToAllFits(peers: seq<Peer>, m: WireMessage)
    requires (forall p :: 0 <= p < |peers| ==> PeerFits(peers[p])) && m.kind != Chat
    ensures forall p :: 0 <= p < |peers| ==> PeerFits(ToAll(peers, m)[p])
    ensures GoOn(peers, ToAll(peers, m)) && forall p :: 0 <= p < |peers| ==> ToAll(peers, m)[p].read == peers[p].read
  {
    hide NoChat, Wire.EncodeMessage, Wire.TakeAll;
    if Wire.EncodeMessage(m).Ok? { EncodedNoChat(m); }
    forall p | 0 <= p < |peers| ensures PeerFits(ToAll(peers, m)[p]) {
      assert PeerFits(peers[p]);
    }
    forall p | 0 <= p < |peers| ensures ToAll(peers, m)[p].read <= |FramesOf(ToAll(peers, m)[p])| {
      assert PeerFits(peers[p]);
    }
  }

  /** The channel stays as it is while the peers go on without reading a chat. */
  lemma SameChannel(s: State, later: seq<Peer>)
    requires ChannelFits(s) && GoOn(s.peers, later)
    requires forall p: nat, k: nat :: HasSaid(later, p, k) ==> HasSaid(s.peers, p, k)
    ensures ChannelFits(s.(peers := later))
  {
    hide OriginTrue, HasSaid, Ordered, GoOn;
    forall i | 0 <= i < |s.events| ensures OriginTrue(later, s.events[i], s.origins[i]) {
      OriginStays(s.peers, later, s.events[i], s.origins[i]);
    }
  }

  /** An event of the hub's own. */
  lemma HubEvent(s: State, e: Event)
    requires ChannelFits(s) && (e.Message? ==> e.from == "[hub]" && e.name == "[system]")
    ensures ChannelFits(Broadcast(s, e, OfHub))
  {
    hide HasSaid;
    var t := Broadcast(s, e, OfHub);
    forall i, j | 0 <= i < j < |t.origins| ensures Ordered(t.origins[i], t.origins[j]) {
      if j < |s.origins| { assert Ordered(s.origins[i], s.origins[j]); }
    }
    forall i | 0 <= i < |t.events| ensures OriginTrue(t.peers, t.events[i], t.origins[i]) {
      if i < |s.events| { assert OriginTrue(s.peers, s.events[i], s.origins[i]); }
    }
    forall o | o in s.origins ensures o in t.origins {
    }
  }

  /** The peer `p` after one more frame. */
  function Advanced(s: State, p: nat, pongs: seq<Bytes>): State
    requires p < |s.peers|
  {
    s.(peers := s.peers[p := s.peers[p].(read := s.peers[p].read + 1, queued := s.peers[p].queued + pongs)])
  }

  /** A chat read is broadcast behind everything its speaker said before. */
  lemma ChatChannel(s: State, p: nat, pongs: seq<Bytes>)
    requires ChannelFits(s) && p < |s.peers| && s.peers[p].read < |FramesOf(s.peers[p])|
    requires forall q :: 0 <= q < |s.peers| ==> PeerFits(s.peers[q])
    requires IsChat(FramesOf(s.peers[p])[s.peers[p].read])
    ensures var k := s.peers[p];
      var e := Message(k.id, k.name, TextOf(FramesOf(k)[k.read]));
      ChannelFits(Broadcast(Advanced(s, p, pongs), e, Spoken(p, k.read)))
  {
    hide Wire.TakeAll, IsChat, TextOf, NoChat;
    var k := s.peers[p];
    var e, o := Message(k.id, k.name, TextOf(FramesOf(k)[k.read])), Spoken(p, k.read);
    var t := Broadcast(Advanced(s, p, pongs), e, o);
    assert t.peers[p].input == k.input && FramesOf(t.peers[p]) == FramesOf(k);
    assert GoOn(s.peers, t.peers) by {
      forall q | 0 <= q < |s.peers| ensures t.peers[q].read <= |FramesOf(t.peers[q])| { assert PeerFits(s.peers[q]); }
    }
    forall i | 0 <= i < |t.events| ensures OriginTrue(t.peers, t.events[i], t.origins[i]) {
      if i < |s.events| { OriginStays(s.peers, t.peers, s.events[i], s.origins[i]); }
    }
    forall i, j | 0 <= i < j < |t.origins| ensures Ordered(t.origins[i], t.origins[j]) {
      if j < |s.origins| {
        assert Ordered(s.origins[i], s.origins[j]);
      } else {
        assert OriginTrue(s.peers, s.events[i], s.origins[i]);
      }
    }
    forall q: nat, n: nat | HasSaid(t.peers, q, n) ensures Spoken(q, n) in t.origins {
      assert t.origins[|s.origins|] == o;
      if !(q == p && n == k.read) { assert HasSaid(s.peers, q, n); }
    }
  }

  lemma ReadFits(s: State, p: nat)
    requires Fits(s) && Enabled(s, Read(p))
    ensures Fits(ReadStep(s, p))
  {
    hide Wire.TakeAll, Wire.DecodeMessage, Wire.EncodeMessage, NoChat, ChannelFits, TextOf;
    var k := s.peers[p];
    assert PeerFits(k);
    var f := FramesOf(k)[k.read];
    if Wire.DecodeMessage(f).Err? {
      SamePeers(s, p, k.(done := true));
    } else {
      var m := Wire.DecodeMessage(f).value;
      var pongs := if m.kind == Ping && Wire.EncodeMessage(PONG).Ok? then [Wire.EncodeMessage(PONG).value] else [];
      if pongs != [] { EncodedNoChat(PONG); }
      assert PeerFits(k.(read := k.read + 1, queued := k.queued + pongs));
      if m.kind == Chat {
        ChatIs(f);
        ChatChannel(s, p, pongs);
      } else {
        NoChatRead(s, p, pongs);
      }
    }
  }

  lemma ChatIs(f: Bytes)
    requires Wire.DecodeMessage(f).Ok? && Wire.DecodeMessage(f).value.kind == Chat
    ensures IsChat(f) && TextOf(f) == Wire.DecodeMessage(f).value.text
  {
  }

  lemma SamePeers(s: State, p: nat, k: Peer)
    requires Fits(s) && p < |s.peers|
    requires k == s.peers[p].(done := k.done, here := k.here)
    ensures Fits(s.(peers := s.peers[p := k])) && GoOn(s.peers, s.peers[p := k])
  {
    hide Wire.TakeAll, IsChat, NoChat, ChannelFits;
    var later := s.peers[p := k];
    forall q | 0 <= q < |later| ensures PeerFits(later[q]) && FramesOf(later[q]) == FramesOf(s.peers[q]) {
      assert PeerFits(s.peers[q]);
    }
    forall q: nat, n: nat | HasSaid(later, q, n) ensures HasSaid(s.peers, q, n) {
    }
    SameChannel(s, later);
  }

  lemma NoChatRead(s: State, p: nat, pongs: seq<Bytes>)
    requires Fits(s) && p < |s.peers| && s.peers[p].read < |FramesOf(s.peers[p])|
    requires !IsChat(FramesOf(s.peers[p])[s.peers[p].read])
    ensures ChannelFits(Advanced(s, p, pongs))
  {
    hide Wire.TakeAll, IsChat, NoChat, ChannelFits;
    var later := Advanced(s, p, pongs).peers;
    assert FramesOf(later[p]) == FramesOf(s.peers[p]);
    assert GoOn(s.peers, later) by {
      forall q | 0 <= q < |s.peers| ensures later[q].read <= |FramesOf(later[q])| { assert PeerFits(s.peers[q]); }
    }
    forall q: nat, n: nat | HasSaid(later, q, n) ensures HasSaid(s.peers, q, n) {
      assert q != p ==> later[q] == s.peers[q];
    }
    SameChannel(s, later);
  }

  lemma JoinFits(s: State, id: string, name: string, input: Bytes)
    requires Fits(s)
    ensures Fits(Apply(s, Join(id, name, input)))
  {
    hide Wire.TakeAll, IsChat, NoChat, ChannelFits;
    var later := s.peers + [Peer(id, name, input, 0, false, true, [])];
    assert GoOn(s.peers, later) by {
      forall q | 0 <= q < |s.peers| ensures later[q].read <= |FramesOf(later[q])| { assert PeerFits(s.peers[q]); }
    }
    forall q | 0 <= q < |later| ensures PeerFits(later[q]) {
      if q < |s.peers| { assert PeerFits(s.peers[q]); }
    }
    SameChannel(s, later);
    HubEvent(s.(peers := later), PeerJoin(id, name));
  }

  lemma ToAllChannel(s: State, m: WireMessage)
    requires Fits(s) && m.kind != Chat
    ensures Fits(s.(peers := ToAll(s.peers, m)))
  {
    hide Wire.TakeAll, Wire.EncodeMessage, IsChat, NoChat, ChannelFits, PeerFits;
    ToAllFits(s.peers, m);
    var later := ToAll(s.peers, m);
    forall q: nat, n: nat | HasSaid(later, q, n) ensures HasSaid(s.peers, q, n) {
      assert FramesOf(later[q]) == FramesOf(s.peers[q]);
    }
    SameChannel(s, later);
  }

  lemma FitsStep(s: State, a: Action)
    requires Fits(s) && Enabled(s, a)
    ensures Fits(Apply(s, a))
  {
    hide ChannelFits, PeerFits, ToAll, FramesOf;
    match a
    case Join(id, name, input) => JoinFits(s, id, name, input);
    case Leave(p) =>
      var k := s.peers[p].(here := false);
      SamePeers(s, p, k);
      HubEvent(s.(peers := s.peers[p := k]), PeerLeave(s.peers[p].id));
    case Read(p) => ReadFits(s, p);
    case StopReading(p) => SamePeers(s, p, s.peers[p].(done := true));
    case Announce(text) =>
      ToAllChannel(s, SystemMessage(text));
      HubEvent(s.(peers := ToAll(s.peers, SystemMessage(text))), Message("[hub]", "[system]", text));
    case PingAll => ToAllChannel(s, WireMessage(Ping, "", ""));
  }

  /** In every reachable state the channel holds exactly the chats the readers have decoded, of each
      speaker in order and once, and the hub's own events; and no queue holds a chat. */
  lemma {:induction false} FitsHolds(run: seq<Action>)
    requires Exec(run).Some?
    ensures Fits(Exec(run).value)
  {
    hide Enabled, Apply, Fits;
    if run == [] {
      StartFits();
    } else {
      FitsHolds(run[..|run| - 1]);
      FitsStep(Exec(run[..|run| - 1]).value, run[|run| - 1]);
    }
  }

  lemma StartFits()
    ensures Fits(START)
  {
    hide OriginTrue, Ordered, PeerFits;
  }

  // ---- what a peer reads ----

  /** A writer of the peer `q`: it has followed the channel, and its queue was filled by the tasks. */
  ghost predicate Serves(s: State, q: nat, b: Books) {
    Balanced(b) && b.events <= s.events && q < |s.peers| && b.queuedEver <= s.peers[q].queued
  }

  /** The frame `f` is the chat that peer `p` spoke in its frame `k`, under the hub's name for it. */
  ghost predicate Relays(s: State, f: Bytes, p: nat, k: nat) {
    && p < |s.peers| && k < s.peers[p].read <= |FramesOf(s.peers[p])| && IsChat(FramesOf(s.peers[p])[k])
    && Wire.DecodeMessage(f) == Ok(ChatMessage(s.peers[p].name, TextOf(FramesOf(s.peers[p])[k])))
  }

  lemma QueueWriteIsNoChat(s: State, q: nat, b: Books, i: nat)
    requires Fits(s) && Serves(s, q, b) && i < |b.log| && b.log[i].source == Queue
    ensures NoChat(b.log[i].frame)
  {
    hide ChannelFits, NoChat, LogTrue, FatesTrue;
    assert PeerFits(s.peers[q]);
    forall n | 0 <= n < |Queued(b.log)| ensures NoChat(Queued(b.log)[n]) {
      assert Queued(b.log)[n] == b.queuedEver[n] == s.peers[q].queued[n];
    }
    QueuedAre(b.log, NoChat);
  }

  /** A broadcast with a message is somebody's chat or the hub's announcement. */
  lemma RingWriteIsSpoken(s: State, q: nat, b: Books, i: nat) returns (o: Origin)
    requires Fits(s) && Serves(s, q, b) && i < |b.log| && b.log[i].source.Ring? && IsChat(b.log[i].frame)
    ensures b.log[i].source.pos < |s.origins| && o == s.origins[b.log[i].source.pos]
    ensures match o
            case OfHub => Wire.DecodeMessage(b.log[i].frame).value.name == "[system]"
            case Spoken(p, k) => Relays(s, b.log[i].frame, p, k)
  {
    hide Wire.TakeAll, Wire.DecodeMessage, FatesTrue;
    BroadcastReads(b.log, b.events, i);
    var pos := b.log[i].source.pos;
    assert b.events[pos] == s.events[pos];
    o := s.origins[pos];
    assert OriginTrue(s.peers, s.events[pos], o);
    hide LogTrue, Queued;
  }

  /** Whatever chat a peer reads before the first cut write is the hub's announcement or was decoded by the
      reader of some peer: its text is that frame's, its name the hub's for the speaker, whatever name he
      wrote. */
  lemma ChatsAreRelayed(run: seq<Action>, q: nat, b: Books, j: nat, i: nat) returns (o: Origin)
    requires Exec(run).Some? && Serves(Exec(run).value, q, b)
    requires i < j <= |b.log| && forall n :: 0 <= n < j ==> Whole(b.log[n])
    ensures i < |Wire.TakeAll(b.output).frames| && Wire.TakeAll(b.output).frames[i] == b.log[i].frame
    ensures IsChat(b.log[i].frame) ==> (
      && b.log[i].source.Ring? && b.log[i].source.pos < |Exec(run).value.origins|
      && o == Exec(run).value.origins[b.log[i].source.pos]
      && match o
         case OfHub => Wire.DecodeMessage(b.log[i].frame).value.name == "[system]"
         case Spoken(p, k) => Relays(Exec(run).value, b.log[i].frame, p, k))
  {
    hide Exec, Fits, Balanced, IsChat, Relays, Whole, Wire.TakeAll;
    FitsHolds(run);
    var s := Exec(run).value;
    QueueIsFrames(s, q, b);
    StreamIntegrity(b, j);
    assert Frames(b.log)[..j][i] == b.log[i].frame;
    o := OfHub;
    if IsChat(b.log[i].frame) {
      if b.log[i].source == Queue {
        QueueWriteIsNoChat(s, q, b, i);
        NotBoth(b.log[i].frame);
      } else {
        o := RingWriteIsSpoken(s, q, b, i);
      }
    }
  }

  lemma NotBoth(f: Bytes)
    requires NoChat(f)
    ensures !IsChat(f)
  {
  }

  lemma QueueIsFrames(s: State, q: nat, b: Books)
    requires Fits(s) && Serves(s, q, b)
    ensures Wire.AllFrames(b.queuedEver)
  {
    hide ChannelFits, Balanced, Wire.IsFrame;
    assert PeerFits(s.peers[q]);
    forall n | 0 <= n < |b.queuedEver| ensures Wire.IsFrame(b.queuedEver[n]) {
      assert b.queuedEver[n] == s.peers[q].queued[n] && NoChat(s.peers[q].queued[n]);
    }
  }

  // ---- in order ----

  lemma {:induction false} PositionsGrow(log: seq<Write>, i: nat)
    requires i < |log| && log[i].source.Ring?
    ensures var n := |Positions(log[..i])|;
      n < |Positions(log)| && Positions(log)[n] == log[i].source.pos
  {
    var init := log[..|log| - 1];
    if i < |init| {
      assert init[..i] == log[..i] && init[i] == log[i];
      PositionsGrow(init, i);
    } else {
      assert log[..i] == init;
    }
  }

  lemma {:induction false} MorePositions(log: seq<Write>, i: nat, j: nat)
    requires i < j <= |log| && log[i].source.Ring?
    ensures |Positions(log[..i])| < |Positions(log[..j])|
  {
    assert log[..j][..i] == log[..i] && log[..j][i] == log[i];
    PositionsGrow(log[..j], i);
  }

  /** And what a peer reads of one speaker it reads in the order in which he said it. */
  lemma ChatsInOrder(run: seq<Action>, q: nat, b: Books, i: nat, j: nat)
    requires Exec(run).Some? && Serves(Exec(run).value, q, b)
    requires i < j < |b.log| && b.log[i].source.Ring? && b.log[j].source.Ring?
    ensures var origins := Exec(run).value.origins;
      && b.log[i].source.pos < b.log[j].source.pos < |origins|
      && Ordered(origins[b.log[i].source.pos], origins[b.log[j].source.pos])
  {
    hide Exec, Fits, Balanced;
    FitsHolds(run);
    PositionsGrow(b.log, i);
    PositionsGrow(b.log, j);
    MorePositions(b.log, i, j);
    BroadcastsInOrder(b, |Positions(b.log[..i])|, |Positions(b.log[..j])|);
    OrderedAt(Exec(run).value, b, i, j);
  }

  lemma OrderedAt(s: State, b: Books, i: nat, j: nat)
    requires Fits(s) && Balanced(b) && b.events <= s.events && i < j < |b.log|
    requires b.log[i].source.Ring? && b.log[j].source.Ring? && b.log[i].source.pos < b.log[j].source.pos
    ensures b.log[j].source.pos < |s.origins|
    ensures Ordered(s.origins[b.log[i].source.pos], s.origins[b.log[j].source.pos])
  {
    hide PeerFits, OriginTrue, Ordered, FatesTrue, FrameOf;
    assert WriteTrue(b.log, j, b.events);
  }

  // ---- the tasks and the reader ----

  /** The events that stem from peer `p`. */
  function EventsOf(p: nat, events: seq<Event>, origins: seq<Origin>): seq<Event>
    requires |events| == |origins|
  {
    if events == [] then []
    else
      var n := |events| - 1;
      EventsOf(p, events[..n], origins[..n]) + (if origins[n].Spoken? && origins[n].peer == p then [events[n]] else [])
  }

  lemma EventsOfSnoc(p: nat, s: State, e: Event, o: Origin)
    requires |s.events| == |s.origins|
    ensures EventsOf(p, s.events + [e], s.origins + [o])
         == EventsOf(p, s.events, s.origins) + (if o.Spoken? && o.peer == p then [e] else [])
  {
    assert (s.events + [e])[..|s.events|] == s.events && (s.origins + [o])[..|s.origins|] == s.origins;
  }

  /** The tasks have put on the channel for peer `p` what `reader_task` would broadcast for the frames read. */
  ghost predicate ReadAsTask(s: State, p: nat)
    requires |s.events| == |s.origins| && p < |s.peers|
  {
    var k := s.peers[p];
    && k.read <= |FramesOf(k)| && AllDecode(FramesOf(k)[..k.read])
    && EventsOf(p, s.events, s.origins) == Relayed(k.id, k.name, FramesOf(k)[..k.read]).broadcast
  }

  lemma ReadOne(s: State, p: nat)
    requires Fits(s) && Enabled(s, Read(p)) && ReadAsTask(s, p)
    ensures |ReadStep(s, p).events| == |ReadStep(s, p).origins| && ReadAsTask(ReadStep(s, p), p)
  {
    hide Wire.TakeAll, Wire.DecodeMessage, Wire.EncodeMessage, EventsOf, Relayed, ChannelFits, PeerFits;
    var k := s.peers[p];
    var fs, t := FramesOf(k), ReadStep(s, p);
    Lengths(s);
    assert t.peers[p].input == k.input && FramesOf(t.peers[p]) == fs;
    if Wire.DecodeMessage(fs[k.read]).Ok? {
      var m := Wire.DecodeMessage(fs[k.read]).value;
      assert fs[..k.read + 1] == fs[..k.read] + [fs[k.read]];
      RelayedSnoc(k.id, k.name, fs[..k.read], fs[k.read]);
      EventsOfSnoc(p, s, Message(k.id, k.name, m.text), Spoken(p, k.read));
      var said := EventsOf(p, s.events, s.origins);
      assert said + [] == said;
    }
  }

  lemma Lengths(s: State)
    requires Fits(s)
    ensures |s.origins| == |s.events|
  {
  }

  /** A step that is not a reading of `p` leaves its events and what it has read. */
  lemma OthersRead(s: State, a: Action, p: nat)
    requires Fits(s) && Enabled(s, a) && p < |s.peers| && a != Read(p)
    ensures var t := Apply(s, a);
      && |t.events| == |t.origins| && p < |t.peers|
      && t.peers[p].read == s.peers[p].read && t.peers[p].input == s.peers[p].input
      && t.peers[p].id == s.peers[p].id && t.peers[p].name == s.peers[p].name
      && EventsOf(p, t.events, t.origins) == EventsOf(p, s.events, s.origins)
  {
    hide FramesOf, Wire.DecodeMessage, Wire.EncodeMessage, EventsOf, ChannelFits, PeerFits;
    Lengths(s);
    var t := Apply(s, a);
    if |t.events| == |s.events| {
      assert t.events == s.events && t.origins == s.origins;
    } else {
      var e, o := t.events[|s.events|], t.origins[|s.origins|];
      assert t.events == s.events + [e] && t.origins == s.origins + [o];
      EventsOfSnoc(p, s, e, o);
      var said := EventsOf(p, s.events, s.origins);
      assert said + [] == said;
    }
  }

  lemma JoinedReads(s: State, a: Action, p: nat)
    requires Fits(s) && Enabled(s, a) && |s.peers| <= p < |Apply(s, a).peers|
    ensures |Apply(s, a).events| == |Apply(s, a).origins| && ReadAsTask(Apply(s, a), p)
  {
    hide Wire.TakeAll, Wire.DecodeMessage, Wire.EncodeMessage, ChannelFits, PeerFits;
    Lengths(s);
    var t := Apply(s, a);
    assert a.Join? && p == |s.peers|;
    NobodysEvents(s, p);
    EventsOfSnoc(p, s, PeerJoin(a.id, a.name), OfHub);
    assert FramesOf(t.peers[p])[..0] == [];
  }

  lemma NobodysEvents(s: State, p: nat)
    requires Fits(s) && p >= |s.peers|
    ensures |s.events| == |s.origins| && EventsOf(p, s.events, s.origins) == []
  {
    hide FramesOf, IsChat, PeerFits, Ordered;
    NobodyIn(p, s.peers, s.events, s.origins);
  }

  lemma {:induction false} NobodyIn(p: nat, peers: seq<Peer>, events: seq<Event>, origins: seq<Origin>)
    requires |events| == |origins| && p >= |peers|
    requires forall i :: 0 <= i < |events| ==> OriginTrue(peers, events[i], origins[i])
    ensures EventsOf(p, events, origins) == []
  {
    hide FramesOf, IsChat;
    if events != [] {
      var n := |events| - 1;
      NobodyIn(p, peers, events[..n], origins[..n]);
      assert OriginTrue(peers, events[n], origins[n]);
    }
  }

  /** In every reachable state and for every peer, what the tasks have broadcast of it is what `reader_task`
      run on the frames read so far broadcasts. */
  lemma {:induction false} ReadersAgree(run: seq<Action>, p: nat)
    requires Exec(run).Some? && p < |Exec(run).value.peers|
    ensures |Exec(run).value.events| == |Exec(run).value.origins| && ReadAsTask(Exec(run).value, p)
  {
    hide Enabled, Apply, Fits, ReadAsTask;
    if run != [] {
      var before, a := run[..|run| - 1], run[|run| - 1];
      var s := Exec(before).value;
      FitsHolds(before);
      if p >= |s.peers| {
        JoinedReads(s, a, p);
      } else {
        ReadersAgree(before, p);
        AgreeOn(s, a, p);
      }
    }
  }

  lemma AgreeOn(s: State, a: Action, p: nat)
    requires Fits(s) && Enabled(s, a) && p < |s.peers| && |s.events| == |s.origins| && ReadAsTask(s, p)
    ensures |Apply(s, a).events| == |Apply(s, a).origins| && p < |Apply(s, a).peers| && ReadAsTask(Apply(s, a), p)
  {
    if a == Read(p) {
      ReadOne(s, p);
      hide ReadStep, ReadAsTask;
    } else {
      OthersRead(s, a, p);
      hide Apply, Fits, EventsOf, Relayed, Wire.TakeAll;
    }
  }

  /** An announcement is broadcast as the hub's, and put as a system message into the queue of everyone
      present who can be sent it; a join and a leave are broadcast under the peer's own id and name. */
  lemma HubSpeaks(s: State, text: string, q: nat)
    requires q < |s.peers|
    ensures var t := Apply(s, Announce(text));
      && t.events == s.events + [Message("[hub]", "[system]", text)] && |t.peers| == |s.peers|
      && t.peers[q].queued == s.peers[q].queued
           + (if s.peers[q].here && Wire.EncodeMessage(WireMessage(System, "", text)).Ok?
              then [Wire.EncodeMessage(WireMessage(System, "", text)).value] else [])
    ensures s.peers[q].here ==>
      Apply(s, Leave(q)).events == s.events + [PeerLeave(s.peers[q].id)] && !Apply(s, Leave(q)).peers[q].here
  {
    hide Wire.EncodeMessage;
    assert s.peers[q].queued + [] == s.peers[q].queued;
  }

  lemma HubGreets(s: State, id: string, name: string, input: Bytes)
    ensures var t := Apply(s, Join(id, name, input));
      && t.events == s.events + [PeerJoin(id, name)] && |t.peers| == |s.peers| + 1
      && t.peers[|s.peers|].here && t.peers[|s.peers|].id == id && t.peers[|s.peers|].name == name
  {
  }

  /** A ping of everyone present, and a pong for a ping, go into the queues of those they are for and nowhere
      else. */
  lemma PingsAndPongs(s: State, p: nat, q: nat)
    requires q < |s.peers|
    ensures var t := Apply(s, PingAll);
      && t.events == s.events && |t.peers| == |s.peers|
      && t.peers[q].queued == s.peers[q].queued
           + (if s.peers[q].here && Wire.EncodeMessage(WireMessage(Ping, "", "")).Ok?
              then [Wire.EncodeMessage(WireMessage(Ping, "", "")).value] else [])
    ensures Enabled(s, Read(p)) && Wire.DecodeMessage(FramesOf(s.peers[p])[s.peers[p].read]).Ok? ==>
      var m, t := Wire.DecodeMessage(FramesOf(s.peers[p])[s.peers[p].read]).value, Apply(s, Read(p)); (
      && |t.peers| == |s.peers| && t.peers[p].read == s.peers[p].read + 1
      && Wire.EncodeMessage(WireMessage(Pong, "", "")).Ok?
      && t.peers[q].queued == s.peers[q].queued
           + (if q == p && m.kind == Ping then [Wire.EncodeMessage(WireMessage(Pong, "", "")).value] else []))
  {
    PongEncodes();
    hide Wire.EncodeMessage, Wire.DecodeMessage, Wire.TakeAll;
    assert s.peers[q].queued + [] == s.peers[q].queued;
  }

  /** A reader that has stopped, or met a bad frame, reads no more. */
  lemma {:induction false} StopsForGood(run: seq<Action>, more: seq<Action>, p: nat)
    requires Exec(run).Some? && Exec(run + more).Some? && p < |Exec(run).value.peers| && Exec(run).value.peers[p].done
    ensures var s, t := Exec(run).value, Exec(run + more).value;
      p < |t.peers| && t.peers[p].done && t.peers[p].read == s.peers[p].read
  {
    hide Apply, Enabled;
    if more == [] {
      assert run + more == run;
    } else {
      var m := more[..|more| - 1];
      assert (run + more)[..|run + more| - 1] == run + m;
      StopsForGood(run, m, p);
      StaysDone(Exec(run + m).value, more[|more| - 1], p);
    }
  }

  lemma StaysDone(s: State, a: Action, p: nat)
    requires Enabled(s, a) && p < |s.peers| && s.peers[p].done
    ensures var t := Apply(s, a); p < |t.peers| && t.peers[p].done && t.peers[p].read == s.peers[p].read
  {
    hide Wire.EncodeMessage, Wire.DecodeMessage, Wire.TakeAll;
  }

  /** Until then it reads on as long as there are frames, also when its peer has been announced as gone. */
  lemma ReadsOn(run: seq<Action>, p: nat)
    requires Exec(run).Some? && p < |Exec(run).value.peers|
    ensures var k := Exec(run).value.peers[p];
      Exec(run + [Read(p)]).Some? <==> !k.done && k.read < |Wire.TakeAll(k.input).frames|
  {
    hide Apply, Wire.TakeAll;
    assert (run + [Read(p)])[..|run|] == run;
  }

  /** What stops it: being told to, or a frame that does not decode. */
  lemma StopsExactly(s: State, a: Action, p: nat)
    requires Enabled(s, a) && p < |s.peers| && !s.peers[p].done
    ensures p < |Apply(s, a).peers|
    ensures Apply(s, a).peers[p].done <==> (
      || a == StopReading(p)
      || (a == Read(p) && Wire.DecodeMessage(FramesOf(s.peers[p])[s.peers[p].read]).Err?))
  {
    hide Wire.EncodeMessage, Wire.DecodeMessage, Wire.TakeAll;
  }
}
