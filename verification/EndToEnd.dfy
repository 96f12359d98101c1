/** The joiner's run loops and the host room put together: what one side sends and the other reports. */
module EndToEnd {
  import opened Basics
  import opened Json
  import App
  import Codecs
  import Handshake
  import Joiner
  import Room
  import RoomBroadcast
  import RoomFifo
  import RoomNames
  import RoomNonces
  import RoomOrder
  import RoomPeers
  import RoomReports
  import RoomTexts
  import Wire

  // ---- from joiner to host ----

  /** The texts as the host reports them. */
  function Signed(name: string, texts: seq<string>): (ps: seq<(string, string)>)
    ensures |ps| == |texts| && forall i :: 0 <= i < |ps| ==> ps[i] == (name, texts[i])
  {
    seq(|texts|, i requires 0 <= i < |texts| => (name, texts[i]))
  }

  lemma {:induction false} ChatsAreSigned(who: Joiner.Who, texts: seq<string>)
    ensures RoomFifo.Chats(Joiner.Chats(who, texts)) == Signed(who.name, texts)
  {
    if texts != [] {
      var n := |texts| - 1;
      assert Joiner.Chats(who, texts)[..n] == Joiner.Chats(who, texts[..n]);
      ChatsAreSigned(who, texts[..n]);
      assert Signed(who.name, texts) == Signed(who.name, texts[..n]) + [(who.name, texts[n])];
    }
  }

  /** For every schedule of the joiner's loop, every way its bytes arrive and every interleaving in the
      host: the chats the host tries to report for the connection are, in order, a prefix of the texts
      given to the joiner, under the joiner's name. */
  lemma TextsArriveInOrder(
      host: string, run: seq<Room.Action>, c: nat, hello: Bytes,
      who: Joiner.Who, inbox: seq<string>, turns: seq<Joiner.Turn>, room: nat -> bool)
    requires Room.Exec(host, run).Some? && c < |Room.Exec(host, run).value.conns|
    requires |hello| == Room.HELLO && Wire.EncodeMessage(SystemMessage(who.name)).Ok?
    requires Room.Exec(host, run).value.conns[c].input
          <= hello + (Wire.EncodeMessage(SystemMessage(who.name)).value
                      + Joiner.Run(Joiner.Begin(inbox), who, turns, true, room).0.written)
    ensures RoomFifo.Spoken(c, Room.Exec(host, run).value.attempts)
         <= Signed(who.name, Joiner.Run(Joiner.Begin(inbox), who, turns, true, room).0.framed)
         <= Signed(who.name, inbox + Joiner.Arrivals(false, turns))
  {
    hide Joiner.Run, Room.Exec, Wire.EncodeMessage, Wire.TakeAll, RoomFifo.Spoken, Concat;
    Joiner.ConnectedRun(who, inbox, turns, room);
    var l := Joiner.Run(Joiner.Begin(inbox), who, turns, true, room).0;
    var chats := Joiner.Chats(who, l.framed);
    RoomFifo.EndToEnd(host, run, c, hello, who.name, chats, l.torn);
    ChatsAreSigned(who, l.framed);
  }

  /** The handshake within the room: when a connection of a room with any number of others has got past
      the name, having been sent bytes of a joiner that succeeded, host and joiner agree on id and name,
      and the host's reader has started right behind the name frame. */
  lemma AgreementInRoom(host: string, run: seq<Room.Action>, c: nat, p: Handshake.Setup, steps: seq<Handshake.Action>)
    requires Room.Exec(host, run).Some? && c < |Room.Exec(host, run).value.conns|
    requires RoomNonces.Stage(Room.Exec(host, run).value.conns[c].phase) >= 4
    requires Handshake.Exec(p, steps).Some? && Handshake.Exec(p, steps).value.joiner.Joined?
    requires Room.Exec(host, run).value.conns[c].input
          <= Handshake.Exec(p, steps).value.read + Handshake.Exec(p, steps).value.up
    ensures var k := Room.Exec(host, run).value.conns[c];
      && Handshake.NameFrame(p).Ok? && |k.input| >= Room.HELLO
      && Room.Nonce(k) == p.hello[..16] && Room.Id(k) == Codecs.ToBase58(p.hello[16..Room.HELLO]) && k.name == p.name
      && k.base == |p.hello + Handshake.NameFrame(p).value|
  {
    Handshake.InvHolds(p, steps);
    RoomFifo.PipedHolds(host, run);
    hide Room.Exec, Handshake.Exec, RoomFifo.Piped, Handshake.Inv, Codecs.ToBase58, Handshake.NameFrame;
    SidesAgree(Room.Exec(host, run).value.conns[c], p, Handshake.Exec(p, steps).value);
  }

  lemma SidesAgree(k: Room.Conn, p: Handshake.Setup, j: Handshake.State)
    requires RoomFifo.Piped(k) && RoomNonces.Stage(k.phase) >= 4
    requires Handshake.Inv(p, j) && j.joiner.Joined? && k.input <= j.read + j.up
    ensures && Handshake.NameFrame(p).Ok? && |k.input| >= Room.HELLO
      && Room.Nonce(k) == p.hello[..16] && Room.Id(k) == Codecs.ToBase58(p.hello[16..Room.HELLO]) && k.name == p.name
      && k.base == |p.hello + Handshake.NameFrame(p).value|
  {
    hide Codecs.ToBase58, Wire.IsFrame, Wire.DecodeMessage, Wire.EncodeMessage, Handshake.HubRead, Handshake.Answered;
    Handshake.NameFrameReads(p);
    NameStandsFirst(k, p.hello, Handshake.Frame(p), j.later);
    assert k.input[..16] == k.input[..Room.HELLO][..16];
    assert Room.Disc(k) == k.input[..Room.HELLO][16..] == p.hello[16..Room.HELLO];
  }

  /** The joiner as the host and its listeners are to know it. */
  function Known(p: Handshake.Setup): Room.PeerInfo { Room.PeerInfo(Codecs.ToBase58(p.hello[16..32]), p.name) }

  /** What a connection that was sent a joiner's bytes tells is the joiner's id and name. */
  lemma TellsJoiner(k: Room.Conn, p: Handshake.Setup, j: Handshake.State, info: Room.PeerInfo)
    requires RoomFifo.Piped(k) && RoomNonces.Stage(k.phase) >= 4
    requires Handshake.Inv(p, j) && j.joiner.Joined? && k.input <= j.read + j.up && RoomNames.Tells(k, info)
    ensures info == Known(p)
  {
    hide Codecs.ToBase58, Wire.IsFrame, Wire.DecodeMessage, Wire.EncodeMessage, Handshake.HubRead, Handshake.Answered;
    Handshake.NameFrameReads(p);
    NameStandsFirst(k, p.hello, Handshake.Frame(p), j.later);
    assert k.input[16..32] == k.input[..Room.HELLO][16..] == p.hello[16..32];
  }

  /** A joiner that succeeded as N is announced as N and nothing else, is mapped as N while it is in the
      map, and is shown as N by a client that has consumed every event. */
  lemma JoinerIsKnown(host: string, run: seq<Room.Action>, c: nat, p: Handshake.Setup, steps: seq<Handshake.Action>)
    requires Room.Exec(host, run).Some? && c < |Room.Exec(host, run).value.conns|
    requires RoomNonces.Stage(Room.Exec(host, run).value.conns[c].phase) >= 4
    requires Handshake.Exec(p, steps).Some? && Handshake.Exec(p, steps).value.joiner.Joined?
    requires Room.Exec(host, run).value.conns[c].input
          <= Handshake.Exec(p, steps).value.read + Handshake.Exec(p, steps).value.up
    ensures var s := Room.Exec(host, run).value;
      forall i :: 0 <= i < |s.attempts| && RoomOrder.JoinOf(s.attempts[i], c)
        ==> s.attempts[i].event == Room.PeerJoin(Known(p))
    ensures var s := Room.Exec(host, run).value;
      RoomPeers.Distinct(s.conns) && RoomPeers.Registered(s.conns[c]) ==> (
        Known(p).id in s.peers && s.peers[Known(p).id] == Known(p))
    ensures var s := Room.Exec(host, run).value;
      (RoomPeers.Distinct(s.conns) && App.PresenceDelivered(s.attempts) && s.queue == [] && App.Present(s.conns[c]))
        ==> Known(p) in App.Shown(s.consumed)
  {
    hide Room.Exec, Handshake.Exec, Handshake.Inv, RoomFifo.Piped, RoomNames.Named, RoomPeers.Distinct, App.Shown,
      App.PresenceDelivered, RoomNames.Tells, Known;
    Handshake.InvHolds(p, steps);
    RoomFifo.PipedHolds(host, run);
    RoomNames.AnnouncedAsSent(host, run);
    var s, j := Room.Exec(host, run).value, Handshake.Exec(p, steps).value;
    forall i | 0 <= i < |s.attempts| && RoomOrder.JoinOf(s.attempts[i], c)
      ensures s.attempts[i].event == Room.PeerJoin(Known(p))
    {
      JoinTells(s, i, c);
      TellsJoiner(s.conns[c], p, j, s.attempts[i].event.info);
    }
    if RoomPeers.Distinct(s.conns) && RoomPeers.Registered(s.conns[c]) {
      RoomNames.EachMappedAsSent(host, run, c);
      TellsJoiner(s.conns[c], p, j, s.peers[Codecs.ToBase58(s.conns[c].input[16..32])]);
      RoomNames.TellsItsId(s.conns[c], s.peers[Codecs.ToBase58(s.conns[c].input[16..32])]);
      MappedUnder(s.conns[c], s.peers[Codecs.ToBase58(s.conns[c].input[16..32])]);
    }
    if RoomPeers.Distinct(s.conns) && App.PresenceDelivered(s.attempts) && s.queue == [] && App.Present(s.conns[c]) {
      App.ObserverMirrors(host, run);
      RoomNames.InfoTells(s.conns[c]);
      TellsJoiner(s.conns[c], p, j, Room.Info(s.conns[c]));
      PresentListed(s.conns, c);
    }
  }

  lemma JoinTells(s: Room.State, i: nat, c: nat)
    requires i < |s.attempts| && RoomNames.Named(s.conns, s.attempts[i]) && RoomOrder.JoinOf(s.attempts[i], c)
    ensures c < |s.conns| && RoomNames.Tells(s.conns[c], s.attempts[i].event.info)
  {
    hide RoomNames.Tells;
  }

  lemma MappedUnder(k: Room.Conn, info: Room.PeerInfo)
    requires RoomNames.Tells(k, info)
    ensures info.id == Codecs.ToBase58(k.input[16..32])
  {
    hide Codecs.ToBase58, Wire.DecodeMessage;
  }

  lemma PresentListed(conns: seq<Room.Conn>, c: nat)
    requires c < |conns| && App.Present(conns[c])
    ensures Room.Info(conns[c]) in App.PresentInfos(conns)
  {
    hide Codecs.ToBase58;
  }

  lemma NameStandsFirst(k: Room.Conn, hello: Bytes, f: Bytes, later: Bytes)
    requires RoomFifo.Piped(k) && RoomNonces.Stage(k.phase) >= 4 && |hello| == Room.HELLO && Wire.IsFrame(f)
    requires k.input <= hello + f + later
    ensures |k.input| >= Room.HELLO && k.input[..Room.HELLO] == hello
    ensures k.base == |hello + f| <= |k.input| && k.input[Room.HELLO..k.base] == f
  {
    hide RoomFifo.Piped, Wire.IsFrame, Wire.TakeFrame;
    NameFramed(k);
    var all := hello + f + later;
    var g := k.input[Room.HELLO..k.base];
    assert g == all[Room.HELLO..k.base];
    CutAt(all, Room.HELLO, k.base);
    assert all[Room.HELLO..] == f + later;
    RoomFifo.SameFirstFrame(g, all[k.base..], f, later);
  }

  lemma NameFramed(k: Room.Conn)
    requires RoomFifo.Piped(k) && RoomNonces.Stage(k.phase) >= 4
    ensures Room.HELLO <= k.base <= |k.input| && Wire.IsFrame(k.input[Room.HELLO..k.base])
  {
    hide Wire.IsFrame, Wire.DecodeMessage, Concat, RoomFifo.AllDecode;
  }

  lemma SignedPrefix(name: string, texts: seq<string>, ps: seq<(string, string)>)
    requires ps <= Signed(name, texts)
    ensures |ps| <= |texts| && ps == Signed(name, texts[..|ps|])
  {
  }

  lemma CutAt(bs: Bytes, i: nat, j: nat)
    requires i <= j <= |bs|
    ensures bs[i..] == bs[i..j] + bs[j..]
  {
  }

  /** And what the listener gets under the connection's id is those texts, in order, less exactly the
      ones refused by a full or deserted event channel. */
  lemma TextsAreHeard(
      host: string, run: seq<Room.Action>, c: nat, hello: Bytes,
      who: Joiner.Who, inbox: seq<string>, turns: seq<Joiner.Turn>, room: nat -> bool)
    requires Room.Exec(host, run).Some? && c < |Room.Exec(host, run).value.conns|
    requires |hello| == Room.HELLO && Wire.EncodeMessage(SystemMessage(who.name)).Ok?
    requires Room.Exec(host, run).value.conns[c].input
          <= hello + (Wire.EncodeMessage(SystemMessage(who.name)).value
                      + Joiner.Run(Joiner.Begin(inbox), who, turns, true, room).0.written)
    requires RoomNonces.Spent(Room.Exec(host, run).value.conns[c])
    requires RoomPeers.Distinct(Room.Exec(host, run).value.conns)
    ensures var s := Room.Exec(host, run).value;
      var texts := Joiner.Run(Joiner.Begin(inbox), who, turns, true, room).0.framed;
      var luck := RoomReports.Luck(c, s.attempts);
      && |luck| <= |texts|
      && RoomReports.SaidBy(Room.Id(s.conns[c]), s.consumed + s.queue)
         == RoomReports.Chosen(Signed(who.name, texts[..|luck|]), luck)
  {
    TextsArriveInOrder(host, run, c, hello, who, inbox, turns, room);
    RoomReports.SpeaksForItself(host, run, c);
    RoomReports.RefusedOnly(host, run, c);
    hide Room.Exec, Joiner.Run, Wire.EncodeMessage, Room.Id, RoomPeers.Distinct, RoomReports.Luck, RoomReports.Chosen,
      RoomReports.SaidBy, RoomReports.Heard, RoomFifo.Spoken, RoomOrder.Justified;
    var texts := Joiner.Run(Joiner.Begin(inbox), who, turns, true, room).0.framed;
    SignedPrefix(who.name, texts, RoomFifo.Spoken(c, Room.Exec(host, run).value.attempts));
  }

  // ---- from host to joiner ----

  function AllSeen(ms: seq<WireMessage>): (es: seq<Room.Event>)
    ensures |es| == |ms| && forall i :: 0 <= i < |ms| ==> es[i] == Joiner.Seen(ms[i])
  {
    seq(|ms|, i requires 0 <= i < |ms| => Joiner.Seen(ms[i]))
  }

  /** The messages meant for a peer: the join notice, if it went out, and the chats kept. */
  function Meant(k: Room.Conn, chats: seq<WireMessage>): seq<WireMessage> {
    (if k.notice == [] then [] else [SystemMessage(k.name + " joined")])
    + RoomBroadcast.Kept(k.start, k.fates, chats)
  }

  lemma {:induction false} FramesAreSeen(fs: seq<Bytes>, ms: seq<WireMessage>)
    requires |fs| <= |ms| && forall i :: 0 <= i < |fs| ==> Wire.DecodeMessage(fs[i]) == Ok(ms[i])
    ensures Joiner.Incoming(fs) == AllSeen(ms[..|fs|])
  {
    hide Wire.DecodeMessage;
    if fs != [] {
      var n := |fs| - 1;
      FramesAreSeen(fs[..n], ms);
      assert fs == fs[..n] + [fs[n]];
      Joiner.IncomingSnoc(fs[..n], fs[n]);
      assert AllSeen(ms[..n + 1]) == AllSeen(ms[..n]) + [Joiner.Seen(ms[n])];
    }
  }

  lemma MeantDecode(k: Room.Conn, chats: seq<WireMessage>)
    requires k.notice == [] || (|k.notice| == 1 && Room.NoticeFor(k.name) == Ok(k.notice[0]))
    ensures |RoomBroadcast.Outgoing(k, chats)| == |Meant(k, chats)|
    ensures forall i :: 0 <= i < |Meant(k, chats)| ==>
              Wire.DecodeMessage(RoomBroadcast.Outgoing(k, chats)[i]) == Ok(Meant(k, chats)[i])
  {
    hide Wire.EncodeMessage, Wire.DecodeMessage, RoomBroadcast.Kept;
    var kept, out := RoomBroadcast.Kept(k.start, k.fates, chats), RoomBroadcast.Outgoing(k, chats);
    var meant := Meant(k, chats);
    var head := |k.notice|;
    forall i | 0 <= i < |meant| ensures Wire.DecodeMessage(out[i]) == Ok(meant[i]) {
      if i < head {
        Wire.MessageRoundTrip(SystemMessage(k.name + " joined"));
      } else {
        assert out[i] == Wire.Frames(kept)[i - head] && meant[i] == kept[i - head];
        Wire.MessageRoundTrip(kept[i - head]);
      }
    }
  }

  lemma ReceivedIsMeant(k: Room.Conn, chats: seq<WireMessage>, received: Bytes)
    requires k.output != [] && [0] + received <= k.output
    requires Wire.TakeAll(k.output[1..]).frames == RoomBroadcast.Outgoing(k, chats)
    requires k.notice == [] || (|k.notice| == 1 && Room.NoticeFor(k.name) == Ok(k.notice[0]))
    ensures Joiner.Incoming(Wire.TakeAll(received).frames) <= AllSeen(Meant(k, chats))
  {
    hide Wire.DecodeMessage, Wire.EncodeMessage, Wire.TakeAll, RoomBroadcast.Outgoing, Joiner.Incoming, Meant,
        Room.NoticeFor;
    var fs := Wire.TakeAll(received).frames;
    assert received <= k.output[1..] by { assert ([0] + received)[1..] == received; }
    Wire.ReadsPrefix(received, k.output[1..]);
    MeantDecode(k, chats);
    FramesAreSeen(fs, Meant(k, chats));
  }

  /** Whatever part of its stream a joiner has received after the accept byte, what its reader reports is
      a prefix of the join notice followed by the host's chats at increasing positions since the
      subscription. */
  lemma ChatsReachJoiner(host: string, run: seq<Room.Action>, c: nat, received: Bytes)
    requires Room.Exec(host, run).Some? && c < |Room.Exec(host, run).value.conns|
    requires RoomNonces.Stage(Room.Exec(host, run).value.conns[c].phase) >= 3
    requires [0] + received <= Room.Exec(host, run).value.conns[c].output
    ensures var s, k := Room.Exec(host, run).value, Room.Exec(host, run).value.conns[c];
            Joiner.Incoming(Wire.TakeAll(received).frames) <= AllSeen(Meant(k, s.chats))
  {
    RoomBroadcast.Delivery(host, run, c);
    hide Room.Exec, Wire.DecodeMessage, Wire.EncodeMessage, Wire.TakeAll, RoomBroadcast.Outgoing,
        RoomBroadcast.FateTrue, Meant;
    var s, k := Room.Exec(host, run).value, Room.Exec(host, run).value.conns[c];
    ReceivedIsMeant(k, s.chats, received);
  }

  /** The notice as the joiner reports it. */
  function NoticeSeen(k: Room.Conn): seq<Room.Event> {
    if k.notice == [] then [] else [Room.Message("", "", k.name + " joined")]
  }

  /** The texts at the given positions as the joiner reports them. */
  function HostTexts(host: string, texts: seq<string>, at: seq<nat>): (es: seq<Room.Event>)
    requires forall i :: 0 <= i < |at| ==> at[i] < |texts|
    ensures |es| == |at|
  {
    seq(|at|, i requires 0 <= i < |at| => Room.Message(host, host, texts[at[i]]))
  }

  lemma MeantAreTexts(host: string, s: Room.State, k: Room.Conn, at: seq<nat>)
    requires RoomTexts.TextsKept(host, s) && |at| == |RoomBroadcast.Kept(k.start, k.fates, s.chats)|
    requires forall i :: 0 <= i < |at| ==>
               at[i] < |s.chats| && RoomBroadcast.Kept(k.start, k.fates, s.chats)[i] == s.chats[at[i]]
    ensures AllSeen(Meant(k, s.chats)) == NoticeSeen(k) + HostTexts(host, s.pushed, at)
  {
    hide RoomBroadcast.Kept, RoomTexts.HostSaid, Wire.EncodeMessage, Room.NoticeFor;
    var kept, notice := RoomBroadcast.Kept(k.start, k.fates, s.chats), NoticeSeen(k);
    forall i | 0 <= i < |at| ensures Joiner.Seen(kept[i]) == Room.Message(host, host, s.pushed[at[i]]) {
      assert s.chats[at[i]] == ChatMessage(host, s.pushed[..|s.chats|][at[i]]);
    }
    assert AllSeen(Meant(k, s.chats)) == notice + AllSeen(kept);
  }

  /** From the room handles to the joiner: what its reader reports after the accept byte is, possibly cut
      short, the join notice and then texts pushed into the room, at increasing positions since the
      subscription, under the host's name. */
  lemma TextsReachJoiner(host: string, run: seq<Room.Action>, c: nat, received: Bytes) returns (at: seq<nat>)
    requires Room.Exec(host, run).Some? && c < |Room.Exec(host, run).value.conns|
    requires RoomNonces.Stage(Room.Exec(host, run).value.conns[c].phase) >= 3
    requires [0] + received <= Room.Exec(host, run).value.conns[c].output
    ensures var s, k := Room.Exec(host, run).value, Room.Exec(host, run).value.conns[c];
      && (forall i :: 0 <= i < |at| ==> k.start <= at[i] < |s.pushed|)
      && (forall i, j :: 0 <= i < j < |at| ==> at[i] < at[j])
      && Joiner.Incoming(Wire.TakeAll(received).frames) <= NoticeSeen(k) + HostTexts(host, s.pushed, at)
  {
    ChatsReachJoiner(host, run, c, received);
    RoomTexts.TextsHold(host, run);
    var s, k := Room.Exec(host, run).value, Room.Exec(host, run).value.conns[c];
    hide Room.Exec, Wire.TakeAll, RoomBroadcast.Kept, Meant, Joiner.Incoming, NoticeSeen, RoomTexts.HostSaid;
    at := RoomBroadcast.KeptPositions(k.start, k.fates, s.chats);
    MeantAreTexts(host, s, k, at);
  }
}
