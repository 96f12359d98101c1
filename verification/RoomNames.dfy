/** Under which id and name a peer is mapped and announced, in terms of the bytes it sent: the Base58 of its
    discriminator and the text of its name frame. */
module RoomNames {
  import opened Basics
  import opened Room
  import opened RoomNonces
  import opened RoomOrder
  import opened RoomPeers
  import RoomFifo
  import Codecs
  import Json
  import Wire

  /** The entry says what the connection's bytes say: 16 bytes of nonce, 16 of discriminator, then the
      frame of the name. */
  ghost predicate Tells(k: Conn, info: PeerInfo) {
    && 32 <= k.base <= |k.input|
    && info.id == Codecs.ToBase58(k.input[16..32])
    && Wire.DecodeMessage(k.input[32..k.base]).Ok?
    && info.name == Wire.DecodeMessage(k.input[32..k.base]).value.text
  }

  /** Once its name is read, a connection's own idea of itself is what it sent. */
  lemma InfoTells(k: Conn)
    requires RoomFifo.Piped(k) && Stage(k.phase) >= 4
    ensures |k.input| >= HELLO && Tells(k, Info(k))
  {
    hide Wire.DecodeMessage, Wire.IsFrame, Codecs.ToBase58, RoomFifo.AllDecode, Concat;
  }

  /** What it has told stays told. */
  lemma StillTells(s: State, a: Action, c: nat, info: PeerInfo)
    requires Valid(s) && Enabled(s, a) && c < |s.conns| && Stage(s.conns[c].phase) >= 4 && Tells(s.conns[c], info)
    ensures c < |Apply(s, a).conns| && Tells(Apply(s, a).conns[c], info)
  {
    hide Apply, ConnAfter, Enabled, Tells;
    RoomFifo.ConnOf(s, a, c);
    if Target(a) == Some(c) { OwnTells(s, a, c, info); }
  }

  lemma OwnTells(s: State, a: Action, c: nat, info: PeerInfo)
    requires Valid(s) && Enabled(s, a) && Target(a) == Some(c)
    requires c < |s.conns| && Stage(s.conns[c].phase) >= 4 && Tells(s.conns[c], info)
    ensures Tells(ConnAfter(s, a, s.conns[c]), info)
  {
    hide ConnAfter, LocalEnabled, Tells, Locked;
    ConnKeeps(s, a, c);
    BaseStays(s, a, c);
    LongerTells(s.conns[c], ConnAfter(s, a, s.conns[c]), info);
  }

  lemma LongerTells(k: Conn, k': Conn, info: PeerInfo)
    requires Tells(k, info) && k.input <= k'.input && k'.base == k.base
    ensures Tells(k', info)
  {
    hide Wire.DecodeMessage, Codecs.ToBase58;
    assert k'.input[16..32] == k.input[16..32] && k'.input[32..k.base] == k.input[32..k.base];
  }

  lemma BaseStays(s: State, a: Action, c: nat)
    requires Valid(s) && Enabled(s, a) && Target(a) == Some(c) && c < |s.conns| && Stage(s.conns[c].phase) >= 4
    ensures ConnAfter(s, a, s.conns[c]).base == s.conns[c].base
  {
    hide LocalStep, LocalEnabled, Locked, NoticeBytes, Nonce;
    if a.Do? { LocalBase(s.conns[c], a.step, s.chats, s.signalled); }
  }

  lemma LocalBase(k: Conn, l: Local, chats: seq<Json.WireMessage>, signalled: bool)
    requires k.taken <= |k.input| && LocalEnabled(k, l, chats, signalled) && Stage(k.phase) >= 4
    ensures LocalStep(k, l, chats).base == k.base
  {
    hide Wire.TakeFrame;
    StepFields(k, l, chats);
    hide ReadNameStep, FetchStep, NextChatStep, WriteChatStep, TakeStep, NoticeStep;
  }

  // ---- announcements ----

  /** A join names the connection by what it sent, a leave by its id. */
  ghost predicate Named(conns: seq<Conn>, a: Attempt) {
    match a.event
    case PeerJoin(info) =>
      a.origin.Peer? && a.origin.conn < |conns| && Stage(conns[a.origin.conn].phase) >= 4
      && Tells(conns[a.origin.conn], info)
    case PeerLeave(id) =>
      a.origin.Peer? && a.origin.conn < |conns| && |conns[a.origin.conn].input| >= 32
      && id == Codecs.ToBase58(conns[a.origin.conn].input[16..32])
    case _ => true
  }

  lemma StageStays(s: State, a: Action, c: nat)
    requires Valid(s) && Enabled(s, a) && c < |s.conns| && Stage(s.conns[c].phase) >= 4
    ensures c < |Apply(s, a).conns| && Stage(Apply(s, a).conns[c].phase) >= 4
  {
    hide Apply, ConnAfter, Enabled;
    RoomFifo.ConnOf(s, a, c);
    if Target(a) == Some(c) { StageKept(s, a, c); }
  }

  lemma StageKept(s: State, a: Action, c: nat)
    requires Valid(s) && Enabled(s, a) && Target(a) == Some(c) && c < |s.conns| && Stage(s.conns[c].phase) >= 4
    ensures Stage(ConnAfter(s, a, s.conns[c]).phase) >= 4
  {
    hide LocalStep, LocalEnabled, Locked, NoticeBytes, Nonce;
    if a.Do? { LocalMoves(s.conns[c], a.step, s.chats, s.signalled); }
  }

  lemma StaysNamed(s: State, a: Action, e: Attempt)
    requires Valid(s) && Enabled(s, a) && Named(s.conns, e)
    ensures Named(Apply(s, a).conns, e)
  {
    hide Apply, ConnAfter, Enabled, Tells, Codecs.ToBase58;
    if e.event.PeerJoin? {
      StageStays(s, a, e.origin.conn);
      StillTells(s, a, e.origin.conn, e.event.info);
    } else if e.event.PeerLeave? {
      var c := e.origin.conn;
      RoomFifo.ConnOf(s, a, c);
      if Target(a) == Some(c) { ConnKeeps(s, a, c); }
      assert Apply(s, a).conns[c].input[16..32] == s.conns[c].input[16..32];
    }
  }

  lemma SentNamed(s: State, a: Action)
    requires Valid(s) && Enabled(s, a) && RoomFifo.AllPiped(s) && Sent(s, a).Some?
    ensures Named(s.conns, Logged(s, a))
  {
    if a.Announce? {
      AnnounceNamed(s, a.c);
    } else if a.Leave? {
      LeaveNamed(s, a.c);
    } else {
      NoPresence(s, a);
      hide Sent;
    }
  }

  lemma AnnounceNamed(s: State, c: nat)
    requires Valid(s) && Enabled(s, Announce(c)) && RoomFifo.AllPiped(s)
    ensures Sent(s, Announce(c)).Some? && Named(s.conns, Logged(s, Announce(c)))
  {
    assert RoomFifo.Piped(s.conns[c]);
    InfoTells(s.conns[c]);
    hide LocalEnabled, Tells, Info, Codecs.ToBase58, RoomFifo.Piped;
  }

  lemma LeaveNamed(s: State, c: nat)
    requires Valid(s) && Enabled(s, Leave(c))
    ensures Sent(s, Leave(c)).Some? && Named(s.conns, Logged(s, Leave(c)))
  {
    hide LocalEnabled, Tells, Codecs.ToBase58;
  }

  lemma NoPresence(s: State, a: Action)
    requires Valid(s) && Enabled(s, a) && Sent(s, a).Some? && !a.Announce? && !a.Leave?
    ensures !Logged(s, a).event.PeerJoin? && !Logged(s, a).event.PeerLeave?
  {
    hide LocalEnabled, Info, Id;
  }

  ghost predicate AllNamed(s: State) { forall i :: 0 <= i < |s.attempts| ==> Named(s.conns, s.attempts[i]) }

  lemma NamedStep(s: State, a: Action)
    requires Valid(s) && Enabled(s, a) && RoomFifo.AllPiped(s) && AllNamed(s)
    ensures AllNamed(Apply(s, a))
  {
    LogGrows(s, a);
    if Sent(s, a).Some? { SentNamed(s, a); }
    hide Apply, Enabled, Sent, Logged, Named, RoomFifo.AllPiped;
    var t := Apply(s, a);
    forall i | 0 <= i < |t.attempts| ensures Named(t.conns, t.attempts[i]) {
      assert Named(s.conns, t.attempts[i]);
      StaysNamed(s, a, t.attempts[i]);
    }
  }

  /** Every join the host tries to report carries the id and the name its connection sent, every leave its
      id. */
  lemma {:induction false} AnnouncedAsSent(host: string, run: seq<Action>)
    requires Exec(host, run).Some?
    ensures AllNamed(Exec(host, run).value)
  {
    hide Apply, Enabled, Named, RoomFifo.AllPiped;
    if run != [] {
      ExecLast(host, run);
      AnnouncedAsSent(host, run[..|run| - 1]);
      RoomFifo.PipedHolds(host, run[..|run| - 1]);
      NamedStep(Exec(host, run[..|run| - 1]).value, run[|run| - 1]);
    }
  }

  // ---- the map ----

  /** The map's entry under `id` is what connection `c`, which is registered, sent. */
  ghost predicate Owns(s: State, c: nat, id: string) {
    && c < |s.conns| && Registered(s.conns[c]) && id in s.peers
    && s.peers[id].id == id && Tells(s.conns[c], s.peers[id])
  }

  ghost predicate AllOwned(s: State) { forall id :: id in s.peers ==> exists c: nat :: Owns(s, c, id) }

  lemma InsertOwns(s: State, a: Action)
    requires Valid(s) && Enabled(s, a) && a.Insert? && Shapes(s) && RoomFifo.AllPiped(s)
    ensures Owns(Apply(s, a), a.c, Id(s.conns[a.c]))
  {
    assert Shape(s.conns[a.c]) && RoomFifo.Piped(s.conns[a.c]);
    InfoTells(s.conns[a.c]);
    StillTells(s, a, a.c, Info(s.conns[a.c]));
    SharedPeers(s, a);
    ConnRegisters(s, a, a.c);
    RoomFifo.ConnOf(s, a, a.c);
    InfoHasId(s.conns[a.c]);
    hide Apply, ConnAfter, Info, Id, Tells, Shape, RoomFifo.Piped;
  }

  lemma InfoHasId(k: Conn)
    requires |k.input| >= HELLO
    ensures Info(k).id == Id(k)
  {
  }

  lemma TellsItsId(k: Conn, info: PeerInfo)
    requires Tells(k, info)
    ensures |k.input| >= HELLO && info.id == Id(k)
  {
    hide Codecs.ToBase58, Wire.DecodeMessage;
  }

  lemma OwnerStays(s: State, a: Action, c: nat, id: string)
    requires Valid(s) && Enabled(s, a) && Shapes(s) && Owns(s, c, id)
    requires !((a.Insert? || a.Remove?) && Id(s.conns[a.c]) == id)
    ensures Owns(Apply(s, a), c, id)
  {
    TouchStep(s, a, id);
    TellsItsId(s.conns[c], s.peers[id]);
    RoomFifo.ConnOf(s, a, c);
    StillTells(s, a, c, s.peers[id]);
    if Target(a) == Some(c) { Keeps(s, a, c); }
    hide Apply, ConnAfter, Id, Tells, Shape;
  }

  lemma Keeps(s: State, a: Action, c: nat)
    requires Valid(s) && Enabled(s, a) && Shapes(s) && Target(a) == Some(c) && c < |s.conns| && Registered(s.conns[c])
    requires !a.Remove?
    ensures Registered(ConnAfter(s, a, s.conns[c]))
  {
    ConnRegisters(s, a, c);
    hide ConnAfter;
  }

  lemma OwnedStep(s: State, a: Action)
    requires Valid(s) && Enabled(s, a) && Shapes(s) && RoomFifo.AllPiped(s) && AllOwned(s)
    ensures AllOwned(Apply(s, a))
  {
    hide Apply, Enabled, Owns, Id, Shape, RoomFifo.AllPiped;
    forall id | id in Apply(s, a).peers ensures exists c: nat :: Owns(Apply(s, a), c, id) {
      var c := OwnerAfter(s, a, id);
    }
  }

  lemma OwnerAfter(s: State, a: Action, id: string) returns (c: nat)
    requires Valid(s) && Enabled(s, a) && Shapes(s) && RoomFifo.AllPiped(s) && AllOwned(s) && id in Apply(s, a).peers
    ensures Owns(Apply(s, a), c, id)
  {
    TouchStep(s, a, id);
    hide Apply, LocalEnabled, Owns, Id, Shape, RoomFifo.AllPiped;
    if a.Insert? && Id(s.conns[a.c]) == id {
      InsertOwns(s, a);
      c := a.c;
    } else {
      c :| Owns(s, c, id);
      OwnerStays(s, a, c, id);
    }
  }

  /** Whatever the discriminators, every entry of the map is what some connection between insert and remove
      sent, id and name. */
  lemma {:induction false} MappedAsSent(host: string, run: seq<Action>)
    requires Exec(host, run).Some?
    ensures AllOwned(Exec(host, run).value)
  {
    hide Shape, Apply, Enabled, Owns, RoomFifo.AllPiped;
    if run != [] {
      ExecLast(host, run);
      MappedAsSent(host, run[..|run| - 1]);
      ShapesHold(host, run[..|run| - 1]);
      RoomFifo.PipedHolds(host, run[..|run| - 1]);
      OwnedStep(Exec(host, run[..|run| - 1]).value, run[|run| - 1]);
    }
  }

  /** With distinct discriminators everyone between insert and remove is in the map under the id and the
      name it sent. */
  lemma EachMappedAsSent(host: string, run: seq<Action>, c: nat)
    requires Exec(host, run).Some? && c < |Exec(host, run).value.conns|
    requires Distinct(Exec(host, run).value.conns) && Registered(Exec(host, run).value.conns[c])
    ensures var s := Exec(host, run).value; var k := s.conns[c];
      && |k.input| >= 32 && Codecs.ToBase58(k.input[16..32]) in s.peers
      && Tells(k, s.peers[Codecs.ToBase58(k.input[16..32])])
  {
    hide Exec, Distinct;
    PeerMap(host, run);
    RoomFifo.PipedHolds(host, run);
    var s := Exec(host, run).value;
    MappedTells(s, c);
  }

  lemma MappedTells(s: State, c: nat)
    requires PeersExact(s) && RoomFifo.AllPiped(s) && c < |s.conns| && Registered(s.conns[c])
    ensures var k := s.conns[c];
      && |k.input| >= 32 && Codecs.ToBase58(k.input[16..32]) in s.peers
      && Tells(k, s.peers[Codecs.ToBase58(k.input[16..32])])
  {
    assert RoomFifo.Piped(s.conns[c]);
    InfoTells(s.conns[c]);
    hide Tells, Codecs.ToBase58, RoomFifo.Piped;
  }
}
