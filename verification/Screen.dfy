/** What the terminal client shows after any events of the room: its lines one by one, and its mode. */
module Screen {
  import opened Room
  import opened App

  /** The events that make a line. */
  function Telling(events: seq<Event>): (told: seq<Event>)
    ensures forall i :: 0 <= i < |told| ==> !told[i].BootstrapProgress?
  {
    if events == [] then []
    else
      var n := |events| - 1;
      Telling(events[..n]) + (if events[n].BootstrapProgress? then [] else [events[n]])
  }

  /** The line for one event. */
  ghost predicate Tells(l: Line, e: Event) {
    match e
    case BootstrapProgress(_) => false
    case RoomReady => l == Line("system", "room ready", true)
    case RoomError => l == Line("system", "error", true)
    case RoomClosed => l == Line("system", "room closed", true)
    case PeerJoin(info) => l == Line("system", info.name + " joined", true)
    case PeerLeave(id) => l == Line("system", id + " left", true)
    case Message(_, name, text) => l == Line(name, text, false)
  }

  /** One line for each event but the progress ones, in their order, with the sender's name and text. */
  lemma {:induction false} LinesExactly(events: seq<Event>)
    ensures var lines := Fold(START, events).lines;
      && |lines| == |Telling(events)|
      && forall i :: 0 <= i < |lines| ==> Tells(lines[i], Telling(events)[i])
  {
    if events != [] { LinesExactly(events[..|events| - 1]); }
  }

  /** The client's own event adds a line as well and changes nothing else. */
  lemma InviteShown(events: seq<Event>, code: string)
    ensures var v := Fold(START, events);
      Handle(v, InviteCreated(code)) == v.(lines := v.lines + [Line("system", "new invite code: " + code, true)])
  {
  }

  // ---- the mode ----

  /** Nothing yet has ended the bootstrap. */
  predicate Booting(events: seq<Event>) {
    forall i :: 0 <= i < |events| ==> !events[i].RoomReady? && !events[i].RoomClosed? && !events[i].PeerJoin?
  }

  /** The room was closed and has not become ready since. */
  predicate Closed(events: seq<Event>) {
    exists i :: 0 <= i < |events| && events[i].RoomClosed?
             && forall j :: i < j < |events| ==> !events[j].RoomReady?
  }

  /** The last progress reported. */
  function Percent(events: seq<Event>): int {
    if events == [] then 0
    else
      match events[|events| - 1]
      case BootstrapProgress(percent) => percent
      case _ => Percent(events[..|events| - 1])
  }

  /** Progress short of the end was reported. */
  predicate Underway(events: seq<Event>) {
    exists i :: 0 <= i < |events| && events[i].BootstrapProgress? && events[i].percent < 100
  }

  lemma Snoc(events: seq<Event>, e: Event)
    ensures Booting(events + [e]) <==> Booting(events) && !e.RoomReady? && !e.RoomClosed? && !e.PeerJoin?
    ensures Closed(events + [e]) <==> e.RoomClosed? || (Closed(events) && !e.RoomReady?)
    ensures Underway(events + [e]) <==> Underway(events) || (e.BootstrapProgress? && e.percent < 100)
  {
    var all := events + [e];
    assert all[|events|] == e;
    BootingSnoc(events, e);
    ClosedSnoc(events, e);
    if Underway(events) {
      var i :| 0 <= i < |events| && events[i].BootstrapProgress? && events[i].percent < 100;
      assert all[i] == events[i];
    }
  }

  lemma BootingSnoc(events: seq<Event>, e: Event)
    ensures Booting(events + [e]) <==> Booting(events) && !e.RoomReady? && !e.RoomClosed? && !e.PeerJoin?
  {
    var all := events + [e];
    assert all[|events|] == e;
    if Booting(all) {
      forall i | 0 <= i < |events| ensures !events[i].RoomReady? && !events[i].RoomClosed? && !events[i].PeerJoin? {
        assert all[i] == events[i];
      }
    }
  }

  lemma ClosedSnoc(events: seq<Event>, e: Event)
    ensures Closed(events + [e]) <==> e.RoomClosed? || (Closed(events) && !e.RoomReady?)
  {
    var all := events + [e];
    assert all[|events|] == e;
    if Closed(all) && !e.RoomClosed? {
      var i :| 0 <= i < |all| && all[i].RoomClosed? && forall j :: i < j < |all| ==> !all[j].RoomReady?;
      assert events[i] == all[i] && forall j :: i < j < |events| ==> events[j] == all[j];
    }
    if Closed(events) && !e.RoomReady? {
      var i :| 0 <= i < |events| && events[i].RoomClosed? && forall j :: i < j < |events| ==> !events[j].RoomReady?;
      assert all[i] == events[i];
    }
  }

  /** The client is shutting down exactly when the room was closed and has not become ready since; it shows
      the bootstrap, with the last progress, exactly while the room has neither become ready nor closed and
      nobody has joined; otherwise it is running. */
  lemma {:induction false} ModeExactly(events: seq<Event>)
    ensures var mode := Fold(START, events).mode;
      && (mode.ShuttingDown? <==> Closed(events))
      && (mode.Bootstrap? <==> Booting(events))
      && (mode.Bootstrap? ==>
            && mode.progress == Percent(events)
            && mode.note == if Underway(events) then "bootstrapping tor..." else "starting tor...")
  {
    if events != [] {
      var n := |events| - 1;
      ModeExactly(events[..n]);
      assert events[..n] + [events[n]] == events;
      Snoc(events[..n], events[n]);
      hide Closed, Underway, Booting;
    }
  }
}
