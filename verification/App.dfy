/** `App::handle_event` of the terminal client: the observer of the event stream. Its peer list mirrors
    the host's peer map. */
module App {
  import opened Basics
  import opened Room
  import opened RoomNonces
  import opened RoomOrder
  import opened RoomPeers
  import Codecs
  import Wire

  datatype Mode = Bootstrap(progress: int, note: string) | Running | ShuttingDown

  datatype Line = Line(name: string, text: string, system: bool)

  /** The events of the host room, and the one the client itself adds. */
  datatype UiEvent = InviteCreated(code: string) | FromRoom(event: Event)

  /** The modelled fields of the client. */
  datatype View = View(mode: Mode, peers: seq<PeerInfo>, lines: seq<Line>)

  predicate Known(peers: seq<PeerInfo>, id: string) { exists i :: 0 <= i < |peers| && peers[i].id == id }

  function Without(peers: seq<PeerInfo>, id: string): (rest: seq<PeerInfo>)
    ensures forall p :: p in rest <==> p in peers && p.id != id
    ensures |rest| <= |peers|
  {
    if peers == [] then []
    else (if peers[0].id == id then [] else [peers[0]]) + Without(peers[1..], id)
  }

  function Said(v: View, name: string, text: string, system: bool): View {
    v.(lines := v.lines + [Line(name, text, system)])
  }

  function Handle(v: View, e: UiEvent): View {
    match e
    case FromRoom(BootstrapProgress(percent)) =>
      if v.mode.Bootstrap? then
        v.(mode := Bootstrap(percent, if percent < 100 then "bootstrapping tor..." else v.mode.note))
      else v
    case InviteCreated(code) => Said(v, "system", "new invite code: " + code, true)
    case FromRoom(RoomReady) => Said(v.(mode := Mode.Running), "system", "room ready", true)
    case FromRoom(PeerJoin(info)) =>
      Said(v.(peers := if Known(v.peers, info.id) then v.peers else v.peers + [info],
              mode := if v.mode.Bootstrap? then Mode.Running else v.mode),
           "system", info.name + " joined", true)
    case FromRoom(PeerLeave(id)) => Said(v.(peers := Without(v.peers, id)), "system", id + " left", true)
    case FromRoom(Message(_, name, text)) => Said(v, name, text, false)
    case FromRoom(RoomClosed) => Said(v, "system", "room closed", true).(mode := Mode.ShuttingDown)
    case FromRoom(RoomError) => Said(v, "system", "error", true)
  }

  class Client {
    var mode: Mode
    var peers: seq<PeerInfo>
    var lines: seq<Line>

    function Snapshot(): View
      reads this
    {
      View(mode, peers, lines)
    }

    constructor ()
      ensures Snapshot() == START
    {
      mode, peers, lines := START.mode, [], [];
    }

    method Push(name: string, text: string, system: bool)
      modifies this`lines
      ensures Snapshot() == Said(old(Snapshot()), name, text, system)
    {
      lines := lines + [Line(name, text, system)];
    }

    method HandleEvent(e: UiEvent)
      modifies this
      ensures Snapshot() == Handle(old(Snapshot()), e)
    {
      match e
      case FromRoom(BootstrapProgress(percent)) =>
        if mode.Bootstrap? {
          mode := Bootstrap(percent, if percent < 100 then "bootstrapping tor..." else mode.note);
        }
      case InviteCreated(code) => Push("system", "new invite code: " + code, true);
      case FromRoom(RoomReady) =>
        mode := Mode.Running;
        Push("system", "room ready", true);
      case FromRoom(PeerJoin(info)) =>
        if !Known(peers, info.id) {
          peers := peers + [info];
        }
        Push("system", info.name + " joined", true);
        if mode.Bootstrap? {
          mode := Mode.Running;
        }
      case FromRoom(PeerLeave(id)) =>
        peers := Without(peers, id);
        Push("system", id + " left", true);
      case FromRoom(Message(_, name, text)) => Push(name, text, false);
      case FromRoom(RoomClosed) =>
        Push("system", "room closed", true);
        mode := Mode.ShuttingDown;
      case FromRoom(RoomError) => Push("system", "error", true);
    }

    /** Consumes a stretch of the event stream. */
    method Follow(events: seq<Event>)
      modifies this
      ensures Snapshot() == Fold(old(Snapshot()), events)
    {
      for i := 0 to |events|
        invariant Snapshot() == Fold(old(Snapshot()), events[..i])
      {
        HandleEvent(FromRoom(events[i]));
        assert events[..i + 1][..i] == events[..i];
      }
      assert events[..|events|] == events;
    }
  }

  const START := View(Bootstrap(0, "starting tor..."), [], [])

  function Fold(v: View, events: seq<Event>): View {
    if events == [] then v
    else Handle(Fold(v, events[..|events| - 1]), FromRoom(events[|events| - 1]))
  }

  // ---- the mirror ----

  function Shown(events: seq<Event>): seq<PeerInfo> { Fold(START, events).peers }

  /** Announced to the observer and not yet announced as gone. */
  predicate Present(k: Conn) { 6 <= Stage(k.phase) <= 11 && |k.input| >= HELLO }

  function PresentInfos(conns: seq<Conn>): set<PeerInfo> {
    set i | 0 <= i < |conns| && Present(conns[i]) :: Info(conns[i])
  }

  predicate UniqueIds(peers: seq<PeerInfo>) {
    forall i, j :: 0 <= i < j < |peers| ==> peers[i].id != peers[j].id
  }

  predicate PresenceEvent(e: Event) { e.PeerJoin? || e.PeerLeave? }

  /** No join or leave was turned away by the event channel. */
  ghost predicate PresenceDelivered(log: seq<Attempt>) {
    forall i :: 0 <= i < |log| && PresenceEvent(log[i].event) ==> log[i].accepted
  }

  lemma {:induction false} WithoutUnique(peers: seq<PeerInfo>, id: string)
    requires UniqueIds(peers)
    ensures UniqueIds(Without(peers, id))
  {
    if peers != [] {
      WithoutUnique(peers[1..], id);
      var rest := Without(peers[1..], id);
      forall j | 0 <= j < |rest| ensures rest[j].id != peers[0].id {
        assert rest[j] in peers[1..];
      }
    }
  }

  /** The list never shows an id twice. */
  lemma {:induction false} ShownUnique(events: seq<Event>)
    ensures UniqueIds(Shown(events))
  {
    if events != [] {
      var init, e := events[..|events| - 1], events[|events| - 1];
      ShownUnique(init);
      if e.PeerLeave? { WithoutUnique(Shown(init), e.id); }
    }
  }

  lemma {:induction false} BootShowsNobody(boot: seq<Event>, events: seq<Event>)
    requires forall i :: 0 <= i < |boot| ==> boot[i].BootstrapProgress?
    ensures Shown(boot + events) == Shown(events)
  {
    if events != [] {
      var n := |events| - 1;
      BootShowsNobody(boot, events[..n]);
      assert boot + events == boot + events[..n] + [events[n]] && events == events[..n] + [events[n]];
      ShownSnoc(boot + events[..n], events[n]);
      ShownSnoc(events[..n], events[n]);
    } else if boot != [] {
      var n := |boot| - 1;
      BootShowsNobody(boot[..n], []);
      assert boot + [] == boot[..n] + [] + [boot[n]];
      ShownSnoc(boot[..n] + [], boot[n]);
    } else {
      assert boot + events == events;
    }
  }

  lemma ShownSnoc(events: seq<Event>, e: Event)
    ensures Shown(events + [e])
         == match e
            case PeerJoin(info) => if Known(Shown(events), info.id) then Shown(events) else Shown(events) + [info]
            case PeerLeave(id) => Without(Shown(events), id)
            case _ => Shown(events)
  {
    assert (events + [e])[..|events|] == events;
  }

  /** After the handshake a connection keeps its id and name. */
  lemma InfoFixed(s: State, a: Action, c: nat)
    requires Valid(s) && Enabled(s, a) && Target(a) == Some(c) && Shape(s.conns[c]) && Stage(s.conns[c].phase) >= 4
    ensures |ConnAfter(s, a, s.conns[c]).input| >= HELLO
    ensures Info(ConnAfter(s, a, s.conns[c])) == Info(s.conns[c])
  {
    hide Wire.TakeFrame, Wire.DecodeMessage, Wire.EncodeMessage, Codecs.ToBase58;
    assert Disc(ConnAfter(s, a, s.conns[c])) == Disc(s.conns[c]);
  }

  lemma SamePresent(conns: seq<Conn>, conns': seq<Conn>)
    requires |conns| <= |conns'|
    requires forall i :: |conns| <= i < |conns'| ==> !Present(conns'[i])
    requires forall i :: 0 <= i < |conns| ==> Present(conns'[i]) == Present(conns[i])
    requires forall i | 0 <= i < |conns| && Present(conns[i]) && Present(conns'[i]) ::
               Info(conns'[i]) == Info(conns[i])
    ensures PresentInfos(conns') == PresentInfos(conns)
  {
    hide Codecs.ToBase58;
    forall p | p in PresentInfos(conns) ensures p in PresentInfos(conns') {
      var i :| 0 <= i < |conns| && Present(conns[i]) && Info(conns[i]) == p;
      assert Present(conns'[i]) && Info(conns'[i]) == p;
    }
    forall p | p in PresentInfos(conns') ensures p in PresentInfos(conns) {
      var i :| 0 <= i < |conns'| && Present(conns'[i]) && Info(conns'[i]) == p;
      assert Present(conns[i]) && Info(conns[i]) == p;
    }
  }

  lemma PresentJoins(conns: seq<Conn>, c: nat, k: Conn)
    requires c < |conns| && !Present(conns[c]) && Present(k)
    ensures PresentInfos(conns[c := k]) == PresentInfos(conns) + {Info(k)}
  {
    hide Codecs.ToBase58;
    var conns' := conns[c := k];
    assert conns'[c] == k;
    forall p | p in PresentInfos(conns) ensures p in PresentInfos(conns') {
      var i :| 0 <= i < |conns| && Present(conns[i]) && Info(conns[i]) == p;
      assert Present(conns'[i]) && Info(conns'[i]) == p;
    }
  }

  lemma PresentLeaves(conns: seq<Conn>, c: nat, k: Conn)
    requires c < |conns| && Present(conns[c]) && !Present(k) && Distinct(conns)
    requires forall i :: 0 <= i < |conns| ==> Shape(conns[i])
    ensures forall p :: p in PresentInfos(conns[c := k]) <==> p in PresentInfos(conns) && p.id != Id(conns[c])
  {
    hide Codecs.ToBase58;
    var conns' := conns[c := k];
    forall p | p in PresentInfos(conns) && p.id != Id(conns[c]) ensures p in PresentInfos(conns') {
      var i :| 0 <= i < |conns| && Present(conns[i]) && Info(conns[i]) == p;
      assert conns'[i] == conns[i];
    }
    forall p | p in PresentInfos(conns') ensures p in PresentInfos(conns) && p.id != Id(conns[c]) {
      var i :| 0 <= i < |conns'| && Present(conns'[i]) && Info(conns'[i]) == p;
      assert i != c && conns'[i] == conns[i];
      assert Shape(conns[i]) && Shape(conns[c]);
      DistinctIds(conns, i, c);
    }
  }

  ghost predicate Mirrors(s: State) {
    forall p :: p in Shown(Delivered(s.attempts)) <==> p in PresentInfos(s.conns)
  }

  /** What a join does to one connection and to the log. */
  lemma JoinLogged(s: State, a: Action)
    requires Valid(s) && Enabled(s, a) && a.Announce? && Shapes(s)
    ensures var k, k' := s.conns[a.c], ConnAfter(s, a, s.conns[a.c]);
      && !Present(k) && Present(k') && Spent(k) && Info(k') == Info(k)
      && Sent(s, a) == Some((Peer(a.c), PeerJoin(Info(k))))
      && Apply(s, a).conns == s.conns[a.c := k']
  {
    hide SharedAfter, Codecs.ToBase58, LocalEnabled, NoticeBytes;
    assert Shape(s.conns[a.c]);
  }

  /** A join or leave that must not be refused goes into the channel. */
  lemma PresenceGoesIn(s: State, a: Action)
    requires Valid(s) && Enabled(s, a) && Sent(s, a).Some? && PresenceEvent(Sent(s, a).value.1)
    requires PresenceDelivered(Apply(s, a).attempts)
    ensures Delivered(Apply(s, a).attempts) == Delivered(s.attempts) + [Sent(s, a).value.1]
  {
    LogGrows(s, a);
    hide Apply, Enabled, Sent, Delivered;
    var entry := Logged(s, a);
    assert Apply(s, a).attempts[|s.attempts|] == entry && entry.accepted;
    DeliveredSnoc(s.attempts, entry);
  }

  lemma MirrorAnnounce(s: State, a: Action)
    requires Valid(s) && Enabled(s, a) && a.Announce? && Shapes(s) && Mirrors(s) && Distinct(s.conns)
    requires PresenceDelivered(Apply(s, a).attempts)
    ensures Mirrors(Apply(s, a))
  {
    JoinLogged(s, a);
    PresenceGoesIn(s, a);
    hide Apply, ConnAfter, Sent, Info, Id, Shown, Delivered, Enabled, Shape, Distinct, PresenceDelivered, Present,
      Mirrors, Known, PresentInfos;
    var k := s.conns[a.c];
    ShownSnoc(Delivered(s.attempts), PeerJoin(Info(k)));
    PresentJoins(s.conns, a.c, ConnAfter(s, a, k));
    NotYetKnown(s, a.c);
    InfoId(k);
    OneMoreShown(s, Apply(s, a), Info(k));
  }

  lemma OneMoreShown(s: State, t: State, info: PeerInfo)
    requires Mirrors(s)
    requires Shown(Delivered(t.attempts)) == Shown(Delivered(s.attempts)) + [info]
    requires PresentInfos(t.conns) == PresentInfos(s.conns) + {info}
    ensures Mirrors(t)
  {
    hide Shown, Delivered, PresentInfos;
  }

  lemma InfoId(k: Conn)
    requires |k.input| >= HELLO
    ensures Info(k).id == Id(k)
  {
  }

  /** Before its announcement nobody with its id is shown. */
  lemma NotYetKnown(s: State, c: nat)
    requires Shapes(s) && Mirrors(s) && Distinct(s.conns) && c < |s.conns| && !Present(s.conns[c]) && Spent(s.conns[c])
    ensures !Known(Shown(Delivered(s.attempts)), Id(s.conns[c]))
  {
    hide Shown, Delivered, Codecs.ToBase58;
    var shown := Shown(Delivered(s.attempts));
    if j :| 0 <= j < |shown| && shown[j].id == Id(s.conns[c]) {
      assert shown[j] in shown && shown[j] in PresentInfos(s.conns);
      var i :| 0 <= i < |s.conns| && Present(s.conns[i]) && Info(s.conns[i]) == shown[j];
      assert Shape(s.conns[i]);
      DistinctIds(s.conns, i, c);
    }
  }

  /** What a leave does to one connection and to the log. */
  lemma LeaveLogged(s: State, a: Action)
    requires Valid(s) && Enabled(s, a) && a.Leave? && Shapes(s)
    ensures Present(s.conns[a.c]) && !Present(ConnAfter(s, a, s.conns[a.c]))
    ensures Sent(s, a) == Some((Peer(a.c), PeerLeave(Id(s.conns[a.c]))))
    ensures Apply(s, a).conns == s.conns[a.c := ConnAfter(s, a, s.conns[a.c])]
  {
    hide SharedAfter, Id, LocalEnabled;
    assert Shape(s.conns[a.c]);
  }

  lemma MirrorLeave(s: State, a: Action)
    requires Valid(s) && Enabled(s, a) && a.Leave? && Shapes(s) && Mirrors(s) && Distinct(s.conns)
    requires PresenceDelivered(Apply(s, a).attempts)
    ensures Mirrors(Apply(s, a))
  {
    LeaveLogged(s, a);
    PresenceGoesIn(s, a);
    hide Apply, ConnAfter, Sent, Info, Id, Shown, Delivered, Enabled, Shape, Distinct, PresenceDelivered, Present,
      Mirrors, PresentInfos;
    var id := Id(s.conns[a.c]);
    ShownSnoc(Delivered(s.attempts), PeerLeave(id));
    PresentLeaves(s.conns, a.c, ConnAfter(s, a, s.conns[a.c]));
    OneLessShown(s, Apply(s, a), id);
  }

  lemma OneLessShown(s: State, t: State, id: string)
    requires Mirrors(s) && Shown(Delivered(t.attempts)) == Without(Shown(Delivered(s.attempts)), id)
    requires forall p :: p in PresentInfos(t.conns) <==> p in PresentInfos(s.conns) && p.id != id
    ensures Mirrors(t)
  {
    hide Shown, Delivered, PresentInfos;
  }

  /** No other step changes who is shown or who is present. */
  lemma MirrorOther(s: State, a: Action)
    requires Valid(s) && Enabled(s, a) && !a.Announce? && !a.Leave? && Shapes(s) && Mirrors(s)
    ensures Mirrors(Apply(s, a))
  {
    hide SharedAfter, ConnAfter, Info, Id, Shown, Delivered, LocalEnabled, Shape;
    LogGrows(s, a);
    if Sent(s, a).Some? {
      var entry := Logged(s, a);
      assert !PresenceEvent(entry.event);
      DeliveredSnoc(s.attempts, entry);
      ShownSnoc(Delivered(s.attempts), entry.event);
      assert Delivered(s.attempts) + [] == Delivered(s.attempts);
    }
    if Target(a).Some? {
      TargetPresent(s, a, Target(a).value);
    }
    SamePresent(s.conns, ConnsAfter(s, a));
  }

  lemma TargetPresent(s: State, a: Action, c: nat)
    requires Valid(s) && Enabled(s, a) && Target(a) == Some(c) && !a.Announce? && !a.Leave? && Shapes(s)
    ensures Present(ConnAfter(s, a, s.conns[c])) == Present(s.conns[c])
    ensures Present(s.conns[c]) ==> Info(ConnAfter(s, a, s.conns[c])) == Info(s.conns[c])
  {
    hide ConnAfter, Codecs.ToBase58, LocalEnabled;
    ConnAdvances(s, a, c);
    assert Shape(s.conns[c]);
    if Stage(s.conns[c].phase) >= 4 { InfoFixed(s, a, c); }
  }

  lemma MirrorStep(s: State, a: Action)
    requires Valid(s) && Enabled(s, a) && Shapes(s)
    requires Distinct(s.conns) && PresenceDelivered(s.attempts) ==> Mirrors(s)
    requires Distinct(Apply(s, a).conns) && PresenceDelivered(Apply(s, a).attempts)
    ensures Mirrors(Apply(s, a))
  {
    DistinctBefore(s, a);
    LogGrows(s, a);
    hide Apply, Shape, Sent, Logged, Distinct, Mirrors, LocalEnabled;
    assert forall i :: 0 <= i < |s.attempts| ==> s.attempts[i] == Apply(s, a).attempts[i];
    if a.Announce? { MirrorAnnounce(s, a); }
    else if a.Leave? { MirrorLeave(s, a); }
    else { MirrorOther(s, a); }
  }

  lemma {:induction false} MirrorHolds(host: string, run: seq<Action>)
    requires Exec(host, run).Some?
    ensures var s := Exec(host, run).value;
            Distinct(s.conns) && PresenceDelivered(s.attempts) ==> Mirrors(s)
  {
    hide Shape, Apply, Enabled, Mirrors, Distinct, PresenceDelivered;
    if run == [] {
      MirrorsAtStart(host);
    } else {
      ExecLast(host, run);
      var s, a := Exec(host, run[..|run| - 1]).value, run[|run| - 1];
      ShapesHold(host, run[..|run| - 1]);
      MirrorHolds(host, run[..|run| - 1]);
      if Distinct(Apply(s, a).conns) && PresenceDelivered(Apply(s, a).attempts) {
        MirrorStep(s, a);
      }
    }
  }

  lemma MirrorsAtStart(host: string)
    ensures Mirrors(Init(host))
  {
  }

  /** With distinct discriminators and no join or leave turned away, a client that has consumed every
      event shows exactly the connections that announced themselves and have not announced leaving,
      each once; and when no connection is between a change of the map and its event, exactly the
      entries of the peer map. */
  lemma ObserverMirrors(host: string, run: seq<Action>)
    requires Exec(host, run).Some? && Exec(host, run).value.queue == []
    requires Distinct(Exec(host, run).value.conns) && PresenceDelivered(Exec(host, run).value.attempts)
    ensures var s := Exec(host, run).value;
      && UniqueIds(Shown(s.consumed))
      && (forall p :: p in Shown(s.consumed) <==> p in PresentInfos(s.conns))
    ensures var s := Exec(host, run).value;
      Settled(s) ==> forall p: PeerInfo :: p in Shown(s.consumed) <==> p.id in s.peers && s.peers[p.id] == p
  {
    MirrorHolds(host, run);
    PeerMap(host, run);
    Channel(host, run);
    var s := Exec(host, run).value;
    hide Exec, Shown, Delivered, Codecs.ToBase58;
    assert s.consumed == s.boot + Delivered(s.attempts);
    BootShowsNobody(s.boot, Delivered(s.attempts));
    ShownUnique(s.consumed);
    if Settled(s) {
      PresentIsMapped(s);
    }
  }

  /** No connection is between a change of the map and its event. */
  ghost predicate Settled(s: State) {
    forall c :: 0 <= c < |s.conns| ==> s.conns[c].phase != Announcing && s.conns[c].phase != Leaving
  }

  lemma PresentIsMapped(s: State)
    requires PeersExact(s) && Settled(s)
    ensures forall p: PeerInfo :: p in PresentInfos(s.conns) <==> p.id in s.peers && s.peers[p.id] == p
  {
    forall p: PeerInfo ensures p in PresentInfos(s.conns) <==> p.id in s.peers && s.peers[p.id] == p {
      if p in PresentInfos(s.conns) { PresentMapped(s, p); }
      if p.id in s.peers && s.peers[p.id] == p { MappedPresent(s, p); }
    }
  }

  lemma PresentMapped(s: State, p: PeerInfo)
    requires PeersExact(s) && Settled(s) && p in PresentInfos(s.conns)
    ensures p.id in s.peers && s.peers[p.id] == p
  {
    hide Codecs.ToBase58;
    var i :| 0 <= i < |s.conns| && Present(s.conns[i]) && Info(s.conns[i]) == p;
    assert Registered(s.conns[i]);
  }

  lemma MappedPresent(s: State, p: PeerInfo)
    requires PeersExact(s) && Settled(s) && p.id in s.peers && s.peers[p.id] == p
    ensures p in PresentInfos(s.conns)
  {
    hide Codecs.ToBase58;
    assert p.id in RegisteredIds(s.conns);
    var i :| 0 <= i < |s.conns| && Registered(s.conns[i]) && Id(s.conns[i]) == p.id;
    assert Present(s.conns[i]) && Info(s.conns[i]) == p;
  }
}
