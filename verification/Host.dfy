/** The main loop of `room.rs` among the other tasks, on an object they all update in place, and what the
    order of its `biased` select gives over whole runs. */
module Host {
  import opened Basics
  import opened Json
  import opened Room
  import opened RoomOrder
  import RoomDrain
  import opened RoomTexts
  import Wire

  /** The state the tasks share, and the connections. */
  class Host {
    const name: string
    var conns: seq<Conn>
    var usedNonces: set<Bytes>
    var peers: map<string, PeerInfo>
    var events: seq<Event>
    var listening: bool
    var msgs: seq<Item>
    var texts: seq<string>
    var textsOpen: bool
    var chats: seq<WireMessage>
    var signalled: bool
    var accepting: bool
    var main: Main
    // history
    var boot: seq<Event>
    var pushed: seq<string>
    var consumed: seq<Event>
    var attempts: seq<Attempt>
    var handled: seq<Item>

    function View(): State
      reads this
    {
      State(conns, usedNonces, peers, events, listening, boot, consumed, attempts, msgs, handled,
            texts, textsOpen, pushed, chats, signalled, accepting, main, name)
    }

    constructor (name: string)
      ensures View() == Init(name) && this.name == name
    {
      this.name := name;
      conns, usedNonces, peers := [], {}, map[];
      events, listening, boot, consumed, attempts := [], true, [], [], [];
      msgs, handled, texts, textsOpen, pushed, chats := [], [], [], true, [], [];
      signalled, accepting, main := false, false, Launching;
    }

    /** `try_send` on the event channel. */
    method TrySend(origin: Origin, e: Event)
      modifies this`events, this`attempts
      ensures View() == Emit(old(View()), origin, e)
    {
      attempts := attempts + [Attempt(origin, e, listening && |events| < EVENT_CAP, |events|)];
      if listening && |events| < EVENT_CAP {
        events := events + [e];
      }
    }

    // ---- one connection ----

    /** The nonce check of `hub_handshake`, under the lock. */
    method CheckNonce(c: nat)
      requires At(View(), c, Checking) && !Locked(View().conns) && Room.Valid(View())
      modifies this`conns, this`usedNonces
      ensures View() == Apply(old(View()), Action.CheckNonce(c))
    {
      var k := conns[c];
      var nonce := k.input[..16];
      if nonce in usedNonces {
        assert usedNonces + {nonce} == usedNonces;
        conns := conns[c := k.(phase := Rejecting, unsent := [1])];
      } else {
        usedNonces := usedNonces + {nonce};
        conns := conns[c := k.(phase := Accepting, burned := true)];
      }
    }

    /** The peer enters the map. */
    method Insert(c: nat)
      requires At(View(), c, Registering) && Room.Valid(View())
      modifies this`conns, this`peers
      ensures View() == Apply(old(View()), Action.Insert(c))
    {
      hide LocalStep, LocalEnabled, Id, Info;
      peers := peers[Id(conns[c]) := Info(conns[c])];
      conns := conns[c := conns[c].(phase := Announcing)];
    }

    method Announce(c: nat)
      requires At(View(), c, Announcing) && Room.Valid(View())
      modifies this`conns, this`events, this`attempts
      ensures View() == Apply(old(View()), Action.Announce(c))
    {
      hide LocalStep, LocalEnabled, Id, Info;
      TrySend(Peer(c), PeerJoin(Info(conns[c])));
      conns := conns[c := conns[c].(phase := Notifying, unsent := NoticeBytes(conns[c].name))];
    }

    /** The reader hands a message to the main loop. */
    method Pass(c: nat)
      requires Room.Valid(View()) && Enabled(View(), Action.Pass(c))
      modifies this`conns, this`msgs
      ensures View() == Apply(old(View()), Action.Pass(c))
    {
      hide LocalStep, LocalEnabled;
      if main == Serving {
        msgs := msgs + [Item(c, Id(conns[c]), conns[c].reader.msg)];
      }
      conns := conns[c := conns[c].(reader := Reading)];
    }

    method Remove(c: nat)
      requires At(View(), c, Removing) && Room.Valid(View())
      modifies this`conns, this`peers
      ensures View() == Apply(old(View()), Action.Remove(c))
    {
      hide LocalStep, LocalEnabled, Id, Info;
      peers := peers - {Id(conns[c])};
      conns := conns[c := conns[c].(phase := Leaving)];
    }

    method Leave(c: nat)
      requires At(View(), c, Leaving) && Room.Valid(View())
      modifies this`conns, this`events, this`attempts
      ensures View() == Apply(old(View()), Action.Leave(c))
    {
      hide LocalStep, LocalEnabled, Id, Info;
      TrySend(Peer(c), PeerLeave(Id(conns[c])));
      conns := conns[c := conns[c].(phase := Gone)];
    }

    // ---- the host's own tasks ----

    method Launch(ok: bool)
      requires main == Launching && CanSend(View()) && Room.Valid(View())
      modifies this`events, this`attempts, this`main, this`accepting
      ensures View() == Apply(old(View()), Action.Launch(ok))
    {
      if ok {
        TrySend(Origin.Host, RoomReady);
        main, accepting := Serving, true;
      } else {
        TrySend(Origin.Host, RoomError);
        main := Refused;
      }
    }

    /** The arm of a text from a room handle. */
    method TakeText()
      requires texts != [] && (main == Serving || main == Refused) && Room.Valid(View())
      modifies this`texts, this`events, this`attempts, this`chats
      ensures View() == Apply(old(View()), MainText)
    {
      TextArm(View());
      hide Apply, LocalEnabled;
      var text := texts[0];
      texts := texts[1..];
      if main == Serving {
        TrySend(Origin.Host, Message("[hub]", name, text));
        chats := chats + [ChatMessage(name, text)];
      }
    }

    /** The arm of a message from a reader. */
    method TakeMessage()
      requires msgs != [] && main == Serving && Room.Valid(View())
      modifies this`msgs, this`handled, this`events, this`attempts
      ensures View() == Apply(old(View()), MainMessage)
    {
      MessageArm(View());
      hide Apply, LocalEnabled;
      var item := msgs[0];
      msgs, handled := msgs[1..], handled + [item];
      if item.msg.kind == Chat {
        TrySend(Peer(item.conn), Message(item.from, item.msg.name, item.msg.text));
      }
    }

    /** One turn of the main loop, its arms tried in the order of the `biased` select: the shutdown
        signal, then texts, then messages. */
    method MainTurn() returns (ended: bool)
      requires (main == Serving || main == Refused) && Room.Valid(View())
      modifies this
      ensures View() == (match Biased(old(View())) case Some(a) => Apply(old(View()), a) case None => old(View()))
      ensures ended <==> main == Ended
    {
      ClosingArms(View());
      hide Apply, LocalEnabled;
      if signalled {
        TrySend(Origin.Host, RoomClosed);
        main := Ended;
      } else if texts != [] {
        TakeText();
      } else if !textsOpen {
        main := Ended;
      } else if main == Serving && msgs != [] {
        TakeMessage();
      }
      ended := main == Ended;
    }

    // ---- runs ----

    /** What a connection's task does on its own. */
    method Local(c: nat, l: Room.Local)
      requires Room.Valid(View()) && Enabled(View(), Do(c, l))
      modifies this`conns
      ensures View() == Apply(old(View()), Do(c, l))
    {
      hide LocalStep, Wire.TakeFrame, Wire.EncodeMessage;
      conns := conns[c := LocalStep(conns[c], l, chats)];
    }

    /** What the world does: connections, room handles, the listener, the signal. */
    method World(a: Action)
      requires Target(a).None? && Room.Valid(View()) && Enabled(View(), a) && !MainArm(a) && !a.Launch?
      modifies this
      ensures View() == Apply(old(View()), a)
    {
      hide Apply, LocalEnabled, CanSend, Locked;
      if a.StopAccepting? || a.CloseTexts? || a.Signal? || a.StopListening? {
        Flip(a);
        return;
      }
      match a {
        case Admit => Admit();
        case PushText(text) => PushText(text);
        case Progress(percent) => Progress(percent);
        case Consume => Consume();
      }
    }

    method Admit()
      requires accepting && Room.Valid(View())
      modifies this`conns
      ensures View() == Apply(old(View()), Action.Admit)
    {
      hide ConnAfter, LocalEnabled;
      conns := conns + [FRESH_CONN];
    }

    /** The flags of the accept loop, the handles, the signal and the listener. */
    method Flip(a: Action)
      requires a.StopAccepting? || a.CloseTexts? || a.Signal? || a.StopListening?
      requires Room.Valid(View()) && Enabled(View(), a)
      modifies this`accepting, this`textsOpen, this`signalled, this`listening
      ensures View() == Apply(old(View()), a)
    {
      NoHandler(View(), a);
      hide ConnsAfter, Emit, Locked, ConnAfter, LocalEnabled, At, CanSend;
      hide PassStep, MainTextStep, MainMessageStep, ProgressStep;
      match a {
        case StopAccepting => accepting := false;
        case CloseTexts => textsOpen := false;
        case Signal => signalled := true;
        case StopListening => listening := false;
      }
    }

    method PushText(text: string)
      requires textsOpen && |texts| < SEND_CAP && Room.Valid(View())
      modifies this`texts, this`pushed
      ensures View() == Apply(old(View()), Action.PushText(text))
    {
      texts, pushed := texts + [text], pushed + [text];
    }

    method Progress(percent: int)
      requires main == Launching && CanSend(View()) && Room.Valid(View())
      modifies this`events, this`boot
      ensures View() == Apply(old(View()), Action.Progress(percent))
    {
      if listening {
        events, boot := events + [BootstrapProgress(percent)], boot + [BootstrapProgress(percent)];
      }
    }

    method Consume()
      requires listening && events != [] && Room.Valid(View())
      modifies this`events, this`consumed
      ensures View() == Apply(old(View()), Action.Consume)
    {
      consumed, events := consumed + [events[0]], events[1..];
    }

    /** One step of any task but the main loop. */
    method Others(a: Action)
      requires Room.Valid(View()) && Enabled(View(), a) && !MainArm(a)
      modifies this
      ensures View() == Apply(old(View()), a)
    {
      hide LocalStep, LocalEnabled, Apply, CanSend, Locked;
      if Target(a).None? && !a.Launch? {
        World(a);
        return;
      }
      match a {
        case Do(c, l) => Local(c, l);
        case CheckNonce(c) => CheckNonce(c);
        case Insert(c) => Insert(c);
        case Announce(c) => Announce(c);
        case Pass(c) => Pass(c);
        case Remove(c) => Remove(c);
        case Leave(c) => Leave(c);
        case Launch(ok) => Launch(ok);
      }
    }

    /** `run_host_loop` among the other tasks: before each turn of the loop the others take the steps
        `world` says, as far as they can. What is done is a run of the room that keeps to the bias. */
    method RunLoop(world: seq<seq<Action>>) returns (run: seq<Action>)
      requires View() == Init(name)
      modifies this
      ensures Exec(name, run) == Some(View()) && Obeys(name, run)
    {
      hide Enabled, Apply, Obeys, Biased;
      run := [];
      ObeysNothing(name);
      for n := 0 to |world|
        invariant Exec(name, run) == Some(View()) && Obeys(name, run)
      {
        for i := 0 to |world[n]|
          invariant Exec(name, run) == Some(View()) && Obeys(name, run)
        {
          var a := world[n][i];
          if !MainArm(a) && Enabled(View(), a) {
            Others(a);
            ObeysMore(name, run, a);
            run := run + [a];
          }
        }
        if main == Serving || main == Refused {
          var arm := Biased(View());
          var ended := MainTurn();
          if arm.Some? {
            ObeysMore(name, run, arm.value);
            run := run + [arm.value];
          }
        }
      }
    }
  }

  // ---- the arms as they change the state ----

  lemma TextArm(s: State)
    requires Room.Valid(s) && Enabled(s, MainText)
    ensures Apply(s, MainText) == MainTextStep(s)
  {
    NoHandler(s, MainText);
    hide ConnsAfter, LocalEnabled;
  }

  lemma MessageArm(s: State)
    requires Room.Valid(s) && Enabled(s, MainMessage)
    ensures Apply(s, MainMessage) == MainMessageStep(s)
  {
    NoHandler(s, MainMessage);
    hide ConnsAfter, LocalEnabled;
  }

  lemma ClosingArms(s: State)
    requires Room.Valid(s)
    ensures Enabled(s, MainClose) ==> Apply(s, MainClose) == Emit(s, Origin.Host, RoomClosed).(main := Ended)
    ensures Enabled(s, MainTextsClosed) ==> Apply(s, MainTextsClosed) == s.(main := Ended)
  {
    if Enabled(s, MainClose) { NoHandler(s, MainClose); }
    if Enabled(s, MainTextsClosed) { NoHandler(s, MainTextsClosed); }
    hide ConnsAfter, LocalEnabled;
  }

  /** Steps outside the handlers leave the connections alone. */
  lemma NoHandler(s: State, a: Action)
    requires Room.Valid(s) && Enabled(s, a) && Target(a).None? && !a.Admit?
    ensures ConnsAfter(s, a) == s.conns
  {
    hide Enabled;
  }

  /** The arm of the main loop that a `biased` select runs. */
  function Biased(s: State): (a: Option<Action>)
    requires Room.Valid(s)
    ensures a.Some? ==> Enabled(s, a.value)
    ensures a.None? && (s.main == Serving || s.main == Refused) ==>
      forall arm :: arm in {MainClose, MainText, MainTextsClosed, MainMessage} ==> !Enabled(s, arm)
  {
    if s.main != Serving && s.main != Refused then None
    else if s.signalled then Some(MainClose)
    else if s.texts != [] then Some(MainText)
    else if !s.textsOpen then Some(MainTextsClosed)
    else if s.main == Serving && s.msgs != [] then Some(MainMessage)
    else None
  }

  // ---- what the bias gives over runs ----

  predicate MainArm(a: Action) { a.MainClose? || a.MainText? || a.MainTextsClosed? || a.MainMessage? }

  /** Every turn of the main loop ran the arm the bias demands. */
  ghost predicate Obeys(host: string, run: seq<Action>)
    requires Exec(host, run).Some?
  {
    if run == [] then true
    else
      ExecLast(host, run);
      var before, a := run[..|run| - 1], run[|run| - 1];
      Obeys(host, before) && (MainArm(a) ==> Biased(Exec(host, before).value) == Some(a))
  }

  lemma ObeysNothing(host: string)
    ensures Obeys(host, [])
  {
  }

  lemma ObeysMore(host: string, run: seq<Action>, a: Action)
    requires Exec(host, run).Some? && Obeys(host, run) && Enabled(Exec(host, run).value, a)
    requires MainArm(a) ==> Biased(Exec(host, run).value) == Some(a)
    ensures Exec(host, run + [a]) == Some(Apply(Exec(host, run).value, a)) && Obeys(host, run + [a])
  {
    hide Enabled, Apply, Biased;
    ExecExtend(host, run, a);
    assert (run + [a])[..|run|] == run;
  }

  /** How many turns of the main loop a run has. */
  function Turns(run: seq<Action>): nat {
    if run == [] then 0 else Turns(run[..|run| - 1]) + (if MainArm(run[|run| - 1]) then 1 else 0)
  }

  /** Nothing said, at most the end of the room. */
  ghost predicate Quiet(log: seq<Attempt>, from: nat) {
    forall i :: from <= i < |log| ==> !log[i].event.Message?
  }

  /** Once the signal is given, the main loop takes at most one more turn, which ends it, and no message
      is reported any more: neither a text nor a peer's chat that was already waiting. */
  lemma {:induction false} OneTurnAfterSignal(host: string, run: seq<Action>, more: seq<Action>)
    requires Exec(host, run).Some? && Exec(host, run + more).Some? && Obeys(host, run + more)
    requires Exec(host, run).value.signalled
    ensures var s, t := Exec(host, run).value, Exec(host, run + more).value;
      && t.signalled && |s.attempts| <= |t.attempts| && Quiet(t.attempts, |s.attempts|)
      && Turns(more) <= 1
      && (Turns(more) == 1 ==> t.main == Ended)
  {
    hide Enabled, Apply, Biased, Sent, Logged;
    if more == [] {
      assert run + more == run;
    } else {
      var m, a := more[..|more| - 1], more[|more| - 1];
      assert (run + more)[..|run + more| - 1] == run + m;
      ExecLast(host, run + more);
      OneTurnAfterSignal(host, run, m);
      SignalledTurn(Exec(host, run + m).value, a);
      LogGrows(Exec(host, run + m).value, a);
    }
  }

  lemma SignalledTurn(s: State, a: Action)
    requires Valid(s) && Enabled(s, a) && s.signalled && (MainArm(a) ==> Biased(s) == Some(a))
    ensures Apply(s, a).signalled
    ensures MainArm(a) ==> s.main != Ended && Apply(s, a).main == Ended
    ensures s.main == Ended ==> Apply(s, a).main == Ended
    ensures Sent(s, a).Some? ==> !Logged(s, a).event.Message?
  {
    MainMoves(s, a);
    StaysSignalled(s, a);
    hide Apply, LocalEnabled, Id, Info, CanSend, At, Locked;
  }

  lemma StaysSignalled(s: State, a: Action)
    requires Valid(s) && Enabled(s, a) && s.signalled
    ensures Apply(s, a).signalled
  {
    hide ConnsAfter, SharedAfter, LocalEnabled;
    RoomDrain.SignalStays(s, a);
  }

  /** A peer's message is taken only when no signal is given, a room handle is still there, and every text
      pushed so far has been both reported and broadcast, in order. */
  lemma TextsFirst(host: string, run: seq<Action>)
    requires run != [] && Exec(host, run).Some? && Obeys(host, run) && run[|run| - 1] == MainMessage
    ensures var s := Exec(host, run).value;
      !s.signalled && s.textsOpen && HostSaid(s.attempts) == s.pushed && s.chats == Broadcast(host, s.pushed)
  {
    ExecLast(host, run);
    TextsHold(host, run);
    var before := Exec(host, run[..|run| - 1]).value;
    TextsHold(host, run[..|run| - 1]);
    TextsMove(before, MainMessage);
    MessageTurn(before);
    hide Exec, Apply, Enabled, HostSaid;
    var s := Exec(host, run).value;
    assert |s.pushed[|s.chats|..]| == 0;
    assert s.pushed[..|s.chats|] == s.pushed;
  }

  lemma MessageTurn(s: State)
    requires Valid(s) && Enabled(s, MainMessage) && Biased(s) == Some(MainMessage)
    ensures s.main == Serving && !s.signalled && s.texts == [] && s.textsOpen
    ensures var t := Apply(s, MainMessage); t.main == Serving && !t.signalled && t.textsOpen
  {
  }
}
