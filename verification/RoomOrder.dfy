/** The order of the host's events over whole runs, and what the event channel loses. */
module RoomOrder {
  import opened Basics
  import opened Room
  import opened RoomNonces
  import Codecs

  // ---- the order, as an automaton over the attempts ----

  function Front(log: seq<Attempt>): seq<Attempt>
    requires log != []
  {
    log[..|log| - 1]
  }

  function Last(log: seq<Attempt>): Attempt
    requires log != []
  {
    log[|log| - 1]
  }

  predicate JoinOf(a: Attempt, c: nat) { a.origin == Peer(c) && a.event.PeerJoin? }
  predicate LeaveOf(a: Attempt, c: nat) { a.origin == Peer(c) && a.event.PeerLeave? }
  predicate MessageOf(a: Attempt, c: nat) { a.origin == Peer(c) && a.event.Message? }

  predicate Joined(log: seq<Attempt>, c: nat) {
    log != [] && (Joined(Front(log), c) || JoinOf(Last(log), c))
  }

  predicate HasLeft(log: seq<Attempt>, c: nat) {
    log != [] && (HasLeft(Front(log), c) || LeaveOf(Last(log), c))
  }

  predicate Closed(log: seq<Attempt>) {
    log != [] && (Closed(Front(log)) || Last(log).event.RoomClosed?)
  }

  predicate Ready(log: seq<Attempt>) { log != [] && log[0].event.RoomReady? }

  /** Which event may come next. */
  predicate MayFollow(log: seq<Attempt>, a: Attempt) {
    match a.event
    case BootstrapProgress(_) => false
    case RoomReady => log == []
    case RoomError => log == []
    case RoomClosed => !Closed(log)
    case PeerJoin(_) => a.origin.Peer? && Ready(log) && !Joined(log, a.origin.conn)
    case PeerLeave(_) => a.origin.Peer? && Joined(log, a.origin.conn) && !HasLeft(log, a.origin.conn)
    case Message(_, _, _) => Ready(log) && !Closed(log) && (a.origin.Peer? ==> Joined(log, a.origin.conn))
  }

  predicate Orderly(log: seq<Attempt>) {
    log == [] || (Orderly(Front(log)) && MayFollow(Front(log), Last(log)))
  }

  lemma {:induction false} JoinedAt(log: seq<Attempt>, c: nat) returns (j: nat)
    requires Joined(log, c)
    ensures j < |log| && JoinOf(log[j], c)
  {
    if JoinOf(Last(log), c) {
      j := |log| - 1;
    } else {
      j := JoinedAt(Front(log), c);
    }
  }

  lemma {:induction false} Seen(log: seq<Attempt>, j: nat, c: nat)
    requires j < |log|
    ensures JoinOf(log[j], c) ==> Joined(log, c)
    ensures LeaveOf(log[j], c) ==> HasLeft(log, c)
    ensures log[j].event.RoomClosed? ==> Closed(log)
  {
    if j < |log| - 1 {
      Seen(Front(log), j, c);
    }
  }

  lemma {:induction false} OrderlyPrefix(log: seq<Attempt>, i: nat)
    requires Orderly(log) && i < |log|
    ensures Orderly(log[..i]) && MayFollow(log[..i], log[i])
  {
    if i < |log| - 1 {
      OrderlyPrefix(Front(log), i);
      assert Front(log)[..i] == log[..i];
    }
  }

  // ---- the invariant ----

  /** How the log, the phases and the channel contents hang together. */
  ghost predicate LogFits(s: State) {
    && Orderly(s.attempts)
    && (s.main == Launching ==> s.attempts == [])
    && (s.main == Launching || s.main == Refused ==> s.conns == [] && !s.accepting)
    && (s.main != Launching ==> s.attempts != [])
    && (s.main == Serving || s.conns != [] || s.accepting ==> Ready(s.attempts))
    && (Closed(s.attempts) ==> s.main == Ended)
    && (forall c: nat :: Joined(s.attempts, c) <==> c < |s.conns| && Stage(s.conns[c].phase) >= 6)
    && (forall c: nat :: HasLeft(s.attempts, c) <==> c < |s.conns| && s.conns[c].phase == Gone)
    && (forall i :: 0 <= i < |s.msgs| ==> Joined(s.attempts, s.msgs[i].conn))
  }

  lemma Extended(log: seq<Attempt>, a: Attempt)
    ensures forall c: nat :: Joined(log + [a], c) <==> Joined(log, c) || JoinOf(a, c)
    ensures forall c: nat :: HasLeft(log + [a], c) <==> HasLeft(log, c) || LeaveOf(a, c)
    ensures Closed(log + [a]) <==> Closed(log) || a.event.RoomClosed?
    ensures Ready(log) ==> Ready(log + [a])
    ensures Orderly(log + [a]) <==> Orderly(log) && MayFollow(log, a)
  {
    assert Front(log + [a]) == log && Last(log + [a]) == a;
  }

  /** How far a step takes its handler: into the joined phases by announcing, out by leaving. */
  lemma ConnAdvances(s: State, a: Action, c: nat)
    requires Valid(s) && Enabled(s, a) && Target(a) == Some(c)
    ensures var k, k' := s.conns[c], ConnAfter(s, a, s.conns[c]);
      && (Stage(k'.phase) >= 6 <==> Stage(k.phase) >= 6 || a.Announce?)
      && (k'.phase == Gone <==> k.phase == Gone || a.Leave?)
      && (a.Announce? ==> Stage(k.phase) < 6)
      && (a.Leave? ==> 6 <= Stage(k.phase) && k.phase != Gone)
  {
    hide LocalStep, LocalEnabled, Nonce, Locked, NoticeBytes;
    if a.Do? { LocalAdvances(s.conns[c], a.step, s.chats, s.signalled); }
  }

  lemma LocalAdvances(k: Conn, l: Local, chats: seq<Json.WireMessage>, signalled: bool)
    requires k.taken <= |k.input| && LocalEnabled(k, l, chats, signalled)
    ensures Stage(LocalStep(k, l, chats).phase) >= 6 <==> Stage(k.phase) >= 6
    ensures LocalStep(k, l, chats).phase == Gone <==> k.phase == Gone
  {
    LocalMoves(k, l, chats, signalled);
    hide LocalStep, LocalEnabled;
  }

  /** The event a step sends, if any. */
  function Sent(s: State, a: Action): Option<(Origin, Event)>
    requires Valid(s) && Enabled(s, a)
  {
    match a
    case Announce(c) => Some((Peer(c), PeerJoin(Info(s.conns[c]))))
    case Leave(c) => Some((Peer(c), PeerLeave(Id(s.conns[c]))))
    case Launch(ok) => Some((Host, if ok then RoomReady else RoomError))
    case MainClose => Some((Host, RoomClosed))
    case MainText => if s.main == Serving then Some((Host, Message("[hub]", s.hostName, s.texts[0]))) else None
    case MainMessage =>
      var i := s.msgs[0];
      if i.msg.kind == Json.Chat then Some((Peer(i.conn), Message(i.from, i.msg.name, i.msg.text))) else None
    case _ => None
  }

  /** Everything a step does to the event channel. */
  lemma Events(s: State, a: Action)
    requires Valid(s) && Enabled(s, a)
    ensures match Sent(s, a)
      case None => Apply(s, a).attempts == s.attempts
      case Some(e) => (
        && Apply(s, a).attempts == Emit(s, e.0, e.1).attempts && Apply(s, a).queue == Emit(s, e.0, e.1).queue
        && Apply(s, a).consumed == s.consumed && Apply(s, a).listening == s.listening)
    ensures var t := Apply(s, a);
      Sent(s, a).None? && !a.Consume? && !a.Progress? ==> t.queue == s.queue && t.consumed == s.consumed
    ensures Apply(s, a).listening ==> s.listening
  {
    hide ConnsAfter, SharedAfter, LocalEnabled, Sent, Emit;
    SharedEvents(s, a);
  }

  lemma SharedEvents(s: State, a: Action)
    requires Valid(s) && Enabled(s, a)
    ensures var t := SharedAfter(s, a);
      match Sent(s, a)
      case None => t.attempts == s.attempts
      case Some(e) => (
        && t.attempts == Emit(s, e.0, e.1).attempts && t.queue == Emit(s, e.0, e.1).queue
        && t.consumed == s.consumed && t.listening == s.listening)
    ensures var t := SharedAfter(s, a);
      Sent(s, a).None? && !a.Consume? && !a.Progress? ==> t.queue == s.queue && t.consumed == s.consumed
    ensures SharedAfter(s, a).listening ==> s.listening
  {
    hide LocalEnabled, Id, Info, Codecs.ToBase58;
  }

  /** What a step does to the main loop. */
  lemma SharedMain(s: State, a: Action)
    requires Valid(s) && Enabled(s, a)
    ensures var t := SharedAfter(s, a);
      match a
      case Launch(ok) => t.main == (if ok then Serving else Refused) && t.accepting == (ok || s.accepting)
      case MainClose => t.main == Ended && t.accepting == s.accepting
      case MainTextsClosed => t.main == Ended && t.accepting == s.accepting
      case StopAccepting => t.main == s.main && !t.accepting
      case _ => t.main == s.main && t.accepting == s.accepting
  {
    hide LocalEnabled, Id, Info;
  }

  /** What a step does to the channel from the readers. */
  lemma SharedMessages(s: State, a: Action)
    requires Valid(s) && Enabled(s, a)
    ensures var t := SharedAfter(s, a);
      match a
      case Pass(c) =>
        && t.handled == s.handled
        && t.msgs == if s.main == Serving then s.msgs + [Item(c, Id(s.conns[c]), s.conns[c].reader.msg)] else s.msgs
      case MainMessage => t.msgs == s.msgs[1..] && t.handled == s.handled + [s.msgs[0]]
      case _ => t.msgs == s.msgs && t.handled == s.handled
  {
    hide LocalEnabled, Id, Info;
  }

  /** What a step does to the main loop and the channel from the readers. */
  lemma MainMoves(s: State, a: Action)
    requires Valid(s) && Enabled(s, a)
    ensures match a
      case Launch(ok) =>
        && Apply(s, a).main == (if ok then Serving else Refused)
        && Apply(s, a).accepting == (ok || s.accepting)
      case MainClose => Apply(s, a).main == Ended && Apply(s, a).accepting == s.accepting
      case MainTextsClosed => Apply(s, a).main == Ended && Apply(s, a).accepting == s.accepting
      case StopAccepting => Apply(s, a).main == s.main && !Apply(s, a).accepting
      case _ => Apply(s, a).main == s.main && Apply(s, a).accepting == s.accepting
    ensures match a
      case Pass(c) => Apply(s, a).handled == s.handled && Apply(s, a).msgs
                   == if s.main == Serving then s.msgs + [Item(c, Id(s.conns[c]), s.conns[c].reader.msg)] else s.msgs
      case MainMessage => Apply(s, a).msgs == s.msgs[1..] && Apply(s, a).handled == s.handled + [s.msgs[0]]
      case _ => Apply(s, a).msgs == s.msgs && Apply(s, a).handled == s.handled
  {
    hide ConnsAfter, SharedAfter, LocalEnabled, Id, Info;
    SharedMain(s, a);
    SharedMessages(s, a);
  }

  function Logged(s: State, a: Action): Attempt
    requires Valid(s) && Enabled(s, a) && Sent(s, a).Some?
  {
    var e := Sent(s, a).value;
    Attempt(e.0, e.1, s.listening && |s.queue| < 256, |s.queue|)
  }

  /** Whatever a step sends may follow what was sent before. */
  lemma SendsInOrder(s: State, a: Action)
    requires Valid(s) && Enabled(s, a) && LogFits(s) && Sent(s, a).Some?
    ensures MayFollow(s.attempts, Logged(s, a))
  {
    hide LocalEnabled, LocalStep, Id, Info, Orderly, Joined, HasLeft, Closed;
  }

  lemma LogGrows(s: State, a: Action)
    requires Valid(s) && Enabled(s, a)
    ensures Apply(s, a).attempts == if Sent(s, a).None? then s.attempts else s.attempts + [Logged(s, a)]
  {
    hide ConnsAfter, SharedAfter, LocalEnabled, Sent;
    Events(s, a);
  }

  /** Who joins and who leaves by a step. */
  lemma JoinsAndLeaves(s: State, a: Action)
    requires Valid(s) && Enabled(s, a)
    ensures forall c: nat :: Joined(Apply(s, a).attempts, c) <==> Joined(s.attempts, c) || a == Announce(c)
    ensures forall c: nat :: HasLeft(Apply(s, a).attempts, c) <==> HasLeft(s.attempts, c) || a == Leave(c)
    ensures Closed(Apply(s, a).attempts) <==> Closed(s.attempts) || a.MainClose?
    ensures Ready(s.attempts) ==> Ready(Apply(s, a).attempts)
  {
    hide Apply, LocalEnabled, Id, Info, Orderly, Joined, HasLeft, Closed, Ready, MayFollow;
    LogGrows(s, a);
    if Sent(s, a).Some? { Extended(s.attempts, Logged(s, a)); }
  }

  lemma StaysOrderly(s: State, a: Action)
    requires Valid(s) && Enabled(s, a) && LogFits(s)
    ensures Orderly(Apply(s, a).attempts)
  {
    hide Apply, Enabled, Orderly, Joined, HasLeft, Closed, Ready, MayFollow, Sent, Logged;
    LogGrows(s, a);
    if Sent(s, a).Some? {
      SendsInOrder(s, a);
      Extended(s.attempts, Logged(s, a));
    }
  }

  lemma PhasesFit(s: State, a: Action)
    requires Valid(s) && Enabled(s, a) && LogFits(s)
    ensures forall c: nat :: Joined(Apply(s, a).attempts, c)
              <==> c < |Apply(s, a).conns| && Stage(Apply(s, a).conns[c].phase) >= 6
    ensures forall c: nat :: HasLeft(Apply(s, a).attempts, c)
              <==> c < |Apply(s, a).conns| && Apply(s, a).conns[c].phase == Gone
  {
    hide ConnAfter, SharedAfter, LocalEnabled, Orderly, Joined, HasLeft, Closed, Ready, Locked;
    JoinsAndLeaves(s, a);
    if Target(a).Some? { ConnAdvances(s, a, Target(a).value); }
    assert Stage(FRESH_CONN.phase) == 0;
  }

  /** A reader passes messages on only for a connection that has joined. */
  lemma PassersJoined(s: State, c: nat)
    requires Shapes(s) && LogFits(s) && c < |s.conns| && s.conns[c].reader.Passing?
    ensures Joined(s.attempts, c)
  {
    hide Orderly, Joined, HasLeft, Closed, Ready;
    assert Shape(s.conns[c]);
  }

  lemma LogStep(s: State, a: Action)
    requires Valid(s) && Enabled(s, a) && Shapes(s) && LogFits(s)
    ensures LogFits(Apply(s, a))
  {
    hide ConnAfter, SharedAfter, LocalEnabled, Shape, MayFollow, Orderly, Joined, HasLeft, Closed, Ready, Locked;
    StaysOrderly(s, a);
    PhasesFit(s, a);
    JoinsAndLeaves(s, a);
    MainMoves(s, a);
    LogGrows(s, a);
    MessagesJoined(s, a);
    if a.Launch? { LaunchReady(s, a); }
  }

  /** Whoever has a message waiting has joined. */
  lemma MessagesJoined(s: State, a: Action)
    requires Valid(s) && Enabled(s, a) && Shapes(s) && LogFits(s)
    ensures forall i :: 0 <= i < |Apply(s, a).msgs| ==> Joined(Apply(s, a).attempts, Apply(s, a).msgs[i].conn)
  {
    hide Apply, Enabled, Shape, Orderly, Joined, HasLeft, Closed, Ready;
    Passing(s, a);
    if a.Pass? { PassersJoined(s, a.c); }
    JoinsAndLeaves(s, a);
    MainMoves(s, a);
  }

  lemma Passing(s: State, a: Action)
    requires Valid(s) && Enabled(s, a)
    ensures a.Pass? ==> a.c < |s.conns| && s.conns[a.c].reader.Passing?
    ensures a.MainMessage? ==> s.msgs != []
  {
    hide LocalEnabled;
  }

  lemma LaunchReady(s: State, a: Action)
    requires Valid(s) && Enabled(s, a) && LogFits(s) && a.Launch?
    ensures a.ok ==> Ready(Apply(s, a).attempts)
    ensures Apply(s, a).attempts != []
  {
    hide ConnAfter, SharedAfter, LocalEnabled, Orderly, Joined, HasLeft, Closed;
    LogGrows(s, a);
  }

  lemma {:induction false} LogHolds(host: string, run: seq<Action>)
    requires Exec(host, run).Some?
    ensures LogFits(Exec(host, run).value)
  {
    hide Shape, Apply, Enabled;
    if run == [] {
      assert LogFits(Init(host));
    } else {
      ExecLast(host, run);
      ShapesHold(host, run[..|run| - 1]);
      LogHolds(host, run[..|run| - 1]);
      LogStep(Exec(host, run[..|run| - 1]).value, run[|run| - 1]);
    }
  }

  // ---- what the order means position by position ----

  /** Everything the order demands of the event at position `j`. */
  ghost predicate InPlace(log: seq<Attempt>, j: nat)
    requires j < |log|
  {
    && (log[j].event.PeerJoin? ==> 0 < j && log[0].event.RoomReady?)
    && (forall c: nat :: LeaveOf(log[j], c) || MessageOf(log[j], c) ==> exists i :: 0 <= i < j && JoinOf(log[i], c))
    && (forall i :: 0 <= i < j && log[i].event.RoomClosed? ==> !log[j].event.RoomClosed? && !log[j].event.Message?)
    && (forall i, c: nat :: 0 <= i < j && JoinOf(log[i], c) ==> !JoinOf(log[j], c))
    && (forall i, c: nat :: 0 <= i < j && LeaveOf(log[i], c) ==> !LeaveOf(log[j], c))
  }

  lemma OrderlyInPlace(log: seq<Attempt>, j: nat)
    requires Orderly(log) && j < |log|
    ensures InPlace(log, j)
  {
    var before := log[..j];
    OrderlyPrefix(log, j);
    forall i | 0 <= i < j
      ensures log[i].event.RoomClosed? ==> Closed(before)
      ensures forall c: nat :: JoinOf(log[i], c) ==> Joined(before, c)
      ensures forall c: nat :: LeaveOf(log[i], c) ==> HasLeft(before, c)
    {
      assert before[i] == log[i];
      forall c: nat
        ensures JoinOf(log[i], c) ==> Joined(before, c)
        ensures LeaveOf(log[i], c) ==> HasLeft(before, c)
      {
        Seen(before, i, c);
      }
      Seen(before, i, 0);
    }
    forall c: nat | LeaveOf(log[j], c) || MessageOf(log[j], c)
      ensures exists i :: 0 <= i < j && JoinOf(log[i], c)
    {
      var i := JoinedAt(before, c);
      assert before[i] == log[i];
    }
  }

  /** Over whole runs: the room is ready before anyone joins; each connection's join comes before its
      leave and before every message it causes, and each happens at most once; the room is closed at
      most once and no message follows. */
  lemma EventOrder(host: string, run: seq<Action>)
    requires Exec(host, run).Some?
    ensures forall j :: 0 <= j < |Exec(host, run).value.attempts| ==> InPlace(Exec(host, run).value.attempts, j)
  {
    hide InPlace;
    LogHolds(host, run);
    var log := Exec(host, run).value.attempts;
    forall j | 0 <= j < |log| ensures InPlace(log, j) {
      OrderlyInPlace(log, j);
    }
  }

  // ---- the event channel ----

  /** The events that went into the channel. */
  function Delivered(log: seq<Attempt>): seq<Event> {
    if log == [] then []
    else Delivered(Front(log)) + (if Last(log).accepted then [Last(log).event] else [])
  }

  /** Nothing is lost inside the channel, it never holds more than 256 events, and an event is turned
      away only when 256 were waiting or the receiver is gone; then nothing is ever accepted again. */
  ghost predicate ChannelKept(s: State) {
    && Contents(s)
    && (forall i :: 0 <= i < |s.boot| ==> s.boot[i].BootstrapProgress?)
    && |s.queue| <= 256
    && forall i :: 0 <= i < |s.attempts| ==> Justified(s, i)
  }

  ghost predicate Justified(s: State, i: nat)
    requires i < |s.attempts|
  {
    if s.attempts[i].accepted then s.attempts[i].backlog < 256
    else if s.attempts[i].backlog == 256 then true
    else !s.listening && forall j :: i <= j < |s.attempts| ==> !s.attempts[j].accepted
  }

  lemma DeliveredNil()
    ensures Delivered([]) == []
  {
  }

  lemma DeliveredSnoc(log: seq<Attempt>, a: Attempt)
    ensures Delivered(log + [a]) == Delivered(log) + (if a.accepted then [a.event] else [])
  {
    assert Front(log + [a]) == log;
  }

  /** What has come out of and waits in the channel are the boot events and then the accepted ones. */
  ghost predicate Contents(s: State) { s.consumed + s.queue == s.boot + Delivered(s.attempts) }

  lemma SentContents(s: State, t: State, a: Attempt)
    requires Contents(s) && t.boot == s.boot && t.consumed == s.consumed && t.attempts == s.attempts + [a]
    requires t.queue == if a.accepted then s.queue + [a.event] else s.queue
    ensures Contents(t)
  {
    hide Delivered;
    DeliveredSnoc(s.attempts, a);
    if a.accepted {
      assert t.consumed + t.queue == s.consumed + s.queue + [a.event];
      assert t.boot + (Delivered(s.attempts) + [a.event]) == s.boot + Delivered(s.attempts) + [a.event];
    } else {
      assert Delivered(s.attempts) + [] == Delivered(s.attempts);
    }
  }

  lemma BootContents(s: State, t: State, e: Event)
    requires Contents(s) && s.attempts == t.attempts == [] && t.consumed == s.consumed
    requires t.boot == s.boot + [e] && t.queue == s.queue + [e]
    ensures Contents(t)
  {
    hide Delivered;
    DeliveredNil();
    assert s.boot + [] == s.boot && t.boot + [] == t.boot;
    assert t.consumed + t.queue == s.consumed + s.queue + [e];
  }

  lemma ContentsStep(s: State, a: Action)
    requires Valid(s) && Enabled(s, a) && Contents(s) && (s.main == Launching ==> s.attempts == [])
    ensures Contents(Apply(s, a))
  {
    if Sent(s, a).Some? {
      SentStep(s, a);
    } else if a.Consume? {
      ConsumeContents(s);
    } else {
      BootMoves(s, a);
      Events(s, a);
      LogGrows(s, a);
      hide Apply, LocalEnabled, Sent, Delivered, Contents;
      if a.Progress? && s.listening {
        BootContents(s, Apply(s, a), BootstrapProgress(a.percent));
      } else {
        SameContents(s, Apply(s, a));
      }
    }
  }

  lemma SentStep(s: State, a: Action)
    requires Valid(s) && Enabled(s, a) && Contents(s) && Sent(s, a).Some?
    ensures Contents(Apply(s, a))
  {
    SentNoBoot(s, a);
    BootMoves(s, a);
    Events(s, a);
    LogGrows(s, a);
    hide Apply, LocalEnabled, Sent, Delivered, Contents, Id, Info;
    SentContents(s, Apply(s, a), Logged(s, a));
  }

  lemma SentNoBoot(s: State, a: Action)
    requires Valid(s) && Enabled(s, a) && Sent(s, a).Some?
    ensures !a.Progress?
  {
  }

  lemma ConsumeContents(s: State)
    requires Valid(s) && Enabled(s, Consume) && Contents(s)
    ensures Contents(Apply(s, Consume))
  {
    hide Delivered;
    ConsumeMoves(s);
    BootMoves(s, Consume);
  }

  lemma SameContents(s: State, t: State)
    requires Contents(s)
    requires t.boot == s.boot && t.consumed == s.consumed && t.queue == s.queue && t.attempts == s.attempts
    ensures Contents(t)
  {
  }

  /** Earlier entries stay justified, as nothing is accepted once the receiver is gone, and a new one is. */
  lemma StayJustified(s: State, t: State)
    requires (forall i :: 0 <= i < |s.attempts| ==> Justified(s, i)) && t.attempts == s.attempts
    requires t.listening ==> s.listening
    ensures forall i :: 0 <= i < |t.attempts| ==> Justified(t, i)
  {
    forall i | 0 <= i < |t.attempts| ensures Justified(t, i) {
      assert Justified(s, i);
    }
  }

  lemma OneMoreJustified(s: State, t: State, a: Attempt)
    requires (forall i :: 0 <= i < |s.attempts| ==> Justified(s, i)) && t.attempts == s.attempts + [a]
    requires t.listening == s.listening
    requires a.accepted == (s.listening && a.backlog < 256) && a.backlog <= 256
    ensures forall i :: 0 <= i < |t.attempts| ==> Justified(t, i)
  {
    forall i | 0 <= i < |t.attempts| ensures Justified(t, i) {
      if i < |s.attempts| { assert Justified(s, i); }
    }
  }

  lemma JustifiedStep(s: State, a: Action)
    requires Valid(s) && Enabled(s, a) && ChannelKept(s)
    ensures forall i :: 0 <= i < |Apply(s, a).attempts| ==> Justified(Apply(s, a), i)
  {
    Events(s, a);
    LogGrows(s, a);
    hide Apply, LocalEnabled, Sent, Contents, Justified;
    if Sent(s, a).Some? {
      OneMoreJustified(s, Apply(s, a), Logged(s, a));
    } else {
      StayJustified(s, Apply(s, a));
    }
  }

  lemma ChannelStep(s: State, a: Action)
    requires Valid(s) && Enabled(s, a) && ChannelKept(s) && (s.main == Launching ==> s.attempts == [])
    ensures ChannelKept(Apply(s, a))
  {
    ContentsStep(s, a);
    BootMoves(s, a);
    Events(s, a);
    JustifiedStep(s, a);
    hide Apply, LocalEnabled, Sent, Contents, Justified;
    if a.Consume? { ConsumeMoves(s); }
  }

  /** What the bootstrap adds. */
  lemma BootMoves(s: State, a: Action)
    requires Valid(s) && Enabled(s, a)
    ensures var t := Apply(s, a);
      if a.Progress? && s.listening then
        && t.boot == s.boot + [BootstrapProgress(a.percent)] && t.queue == s.queue + [BootstrapProgress(a.percent)]
        && |s.queue| < EVENT_CAP && t.consumed == s.consumed && t.attempts == s.attempts && s.main == Launching
      else t.boot == s.boot && (a.Progress? ==> t.queue == s.queue && t.consumed == s.consumed)
  {
    hide ConnsAfter, SharedAfter, LocalEnabled;
    SharedBoot(s, a);
  }

  lemma SharedBoot(s: State, a: Action)
    requires Valid(s) && Enabled(s, a)
    ensures a.Progress? ==> SharedAfter(s, a) == ProgressStep(s, BootstrapProgress(a.percent))
    ensures !a.Progress? ==> SharedAfter(s, a).boot == s.boot
  {
    hide LocalEnabled, Id, Info, CanSend, At, ProgressStep, Locked, Nonce;
    match a
    case MainText =>
    case MainMessage =>
    case Announce(_) =>
    case Leave(_) =>
    case Launch(_) =>
    case MainClose =>
    case Pass(_) =>
    case _ =>
  }

  lemma ConsumeMoves(s: State)
    requires Valid(s) && Enabled(s, Consume)
    ensures var t := Apply(s, Consume);
            t.consumed + t.queue == s.consumed + s.queue && |t.queue| < |s.queue| && t.attempts == s.attempts
  {
  }

  lemma {:induction false} Channel(host: string, run: seq<Action>)
    requires Exec(host, run).Some?
    ensures ChannelKept(Exec(host, run).value)
  {
    hide Apply, Enabled;
    if run != [] {
      ExecLast(host, run);
      Channel(host, run[..|run| - 1]);
      LogHolds(host, run[..|run| - 1]);
      ChannelStep(Exec(host, run[..|run| - 1]).value, run[|run| - 1]);
    }
  }
}
