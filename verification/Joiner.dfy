/** The run loops of `joiner.rs`. The scheduler is a sequence of `select!` arms and arrivals, and
    `room(n)` says whether the n-th `try_send` into the event channel finds room; every contract holds
    for all of them. */
module Joiner {
  import opened Basics
  import Json
  import Room
  import Stream
  import Wire

  type Event = Room.Event

  /** How writing and flushing one frame ends: completely, or with an error or timeout once `count` bytes
      of it are out (all of them when only the flush fails). */
  datatype Io = Complete | Cut(count: nat)

  /** What happens next: an arm of the `select!`, or something outside that changes what is ready. */
  datatype Turn =
    | Arrives(text: string) | SendersGone
    | Shutdown | ReaderDone | Receive(io: Io) | ReceiverDropped

  datatype End = Going | Over(result: Result<(), ChatError>)

  datatype Who = Who(id: string, name: string)

  /** The loop's variables. History: `framed`, the texts whose frames went out whole, `drained`, those
      taken from the channel without being written, `echoed`, those shown locally, `torn`, the first
      bytes of a frame that did not go out whole, and the events `dropped` by the final flush. */
  datatype Loop = Loop(
    inbox: seq<string>, closed: bool, tries: nat, pending: seq<Event>,
    delivered: seq<Event>, dropped: seq<Event>, written: Bytes,
    framed: seq<string>, drained: seq<string>, echoed: seq<string>, torn: Bytes)

  function MakeEvent(who: Who, text: string): Event { Room.Message(who.id, who.name, text) }

  function Chat(who: Who, text: string): Json.WireMessage { Json.ChatMessage(who.name, text) }

  // ---- what the loops do, as functions ----

  function TryEmit(l: Loop, e: Event, room: nat -> bool): Loop {
    if room(l.tries) then l.(tries := l.tries + 1, delivered := l.delivered + [e])
    else l.(tries := l.tries + 1, pending := l.pending + [e])
  }

  /** The local echo of a text. */
  function Echo(l: Loop, who: Who, text: string, room: nat -> bool): Loop {
    TryEmit(l.(echoed := l.echoed + [text]), MakeEvent(who, text), room)
  }

  function Popped(l: Loop): Loop
    requires l.pending != []
  {
    var n := |l.pending| - 1;
    l.(tries := l.tries + 1, pending := l.pending[..n], delivered := l.delivered + [l.pending[n]])
  }

  function Discarded(l: Loop): Loop { l.(tries := l.tries + 1, pending := [], dropped := l.dropped + l.pending) }

  /** Pops from the end; the first event that does not fit is dropped with all that remain. */
  function Flush(l: Loop, room: nat -> bool): Loop
    decreases |l.pending|
  {
    if l.pending == [] then l
    else if room(l.tries) then Flush(Popped(l), room)
    else Discarded(l)
  }

  function Drain(l: Loop, who: Who, room: nat -> bool): Loop
    decreases |l.inbox|
  {
    if l.inbox == [] then l
    else
      var taken := l.(inbox := l.inbox[1..], drained := l.drained + [l.inbox[0]]);
      Drain(Echo(taken, who, l.inbox[0], room), who, room)
  }

  function DrainAndFlush(l: Loop, who: Who, room: nat -> bool): Loop { Flush(Drain(l, who, room), room) }

  /** `process_outgoing_message`: encode, write, echo. */
  function Process(l: Loop, who: Who, io: Io, room: nat -> bool): (Loop, End)
    requires l.inbox != []
  {
    var text := l.inbox[0];
    var taken := l.(inbox := l.inbox[1..]);
    match Wire.EncodeMessage(Chat(who, text))
    case Err(e) => (taken, Over(Err(e)))
    case Ok(f) =>
      if io.Cut? && io.count < |f| then
        (taken.(written := l.written + f[..io.count], torn := f[..io.count]), Over(Err(Connection("write"))))
      else
        var out := taken.(written := l.written + f, framed := l.framed + [text]);
        if io.Cut? then (out, Over(Err(Connection("flush"))))
        else (Echo(out, who, text, room), Going)
  }

  /** One turn of `write_loop` (connected) or `run_disconnected`. An arm that is not ready does nothing. */
  function Step(l: Loop, who: Who, t: Turn, connected: bool, room: nat -> bool): (Loop, End) {
    match t
    case Arrives(text) => (if l.closed then l else l.(inbox := l.inbox + [text]), Going)
    case SendersGone => (l.(closed := true), Going)
    case Shutdown => (DrainAndFlush(l, who, room), Over(Ok(())))
    case ReaderDone => if connected then (DrainAndFlush(l, who, room), Over(Ok(()))) else (l, Going)
    case Receive(io) =>
      if l.inbox == [] then
        if l.closed then (DrainAndFlush(l, who, room), Over(Ok(()))) else (l, Going)
      else if connected then Process(l, who, io, room)
      else
        var taken := l.(inbox := l.inbox[1..], drained := l.drained + [l.inbox[0]]);
        (Echo(taken, who, l.inbox[0], room), Going)
    case ReceiverDropped => (l, Over(Err(Connection("event receiver dropped"))))
  }

  function Run(l: Loop, who: Who, turns: seq<Turn>, connected: bool, room: nat -> bool): (Loop, End)
    decreases |turns|
  {
    if turns == [] then (l, Going)
    else
      var r := Step(l, who, turns[0], connected, room);
      if r.1.Over? then r else Run(r.0, who, turns[1..], connected, room)
  }

  // ---- the loops ----

  class Task {
    const who: Who
    const room: nat -> bool
    var l: Loop

    constructor (who: Who, inbox: seq<string>, room: nat -> bool)
      ensures this.who == who && this.room == room && l == Begin(inbox)
    {
      this.who, this.room := who, room;
      l := Begin(inbox);
    }

    method TrySend(e: Event) returns (sent: bool)
      modifies this
      ensures sent == room(old(l).tries)
      ensures l == if sent then old(l).(tries := old(l).tries + 1, delivered := old(l).delivered + [e])
                   else old(l).(tries := old(l).tries + 1)
    {
      sent := room(l.tries);
      l := l.(tries := l.tries + 1);
      if sent { l := l.(delivered := l.delivered + [e]); }
    }

    method Emit(e: Event)
      modifies this
      ensures l == TryEmit(old(l), e, room)
    {
      var sent := TrySend(e);
      if !sent { l := l.(pending := l.pending + [e]); }
    }

    method Show(text: string)
      modifies this
      ensures l == Echo(old(l), who, text, room)
    {
      l := l.(echoed := l.echoed + [text]);
      Emit(MakeEvent(who, text));
    }

    method FlushPending()
      modifies this
      ensures l == Flush(old(l), room) && l.pending == []
    {
      while l.pending != []
        invariant Flush(l, room) == Flush(old(l), room)
        decreases |l.pending|
      {
        ghost var before := l;
        var e := l.pending[|l.pending| - 1];
        l := l.(pending := l.pending[..|l.pending| - 1]);
        var sent := TrySend(e);
        if !sent {
          assert l.pending + [e] == before.pending;
          l := l.(dropped := l.dropped + l.pending + [e], pending := []);
          assert l.dropped == before.dropped + before.pending;
          break;
        }
      }
    }

    method DrainAndFlushAll()
      modifies this
      ensures l == DrainAndFlush(old(l), who, room) && l.inbox == [] && l.pending == []
    {
      while l.inbox != []
        invariant Drain(l, who, room) == Drain(old(l), who, room)
        decreases |l.inbox|
      {
        var text := l.inbox[0];
        l := l.(inbox := l.inbox[1..], drained := l.drained + [text]);
        Show(text);
      }
      FlushPending();
      FlushKeepsInbox(Drain(old(l), who, room), room);
    }

    method ProcessOutgoing(io: Io) returns (end: End)
      requires l.inbox != []
      modifies this
      ensures (l, end) == Process(old(l), who, io, room)
    {
      var text := l.inbox[0];
      l := l.(inbox := l.inbox[1..]);
      var frame := Wire.EncodeMessage(Chat(who, text));
      if frame.Err? {
        return Over(Err(frame.error));
      }
      var f := frame.value;
      if io.Cut? && io.count < |f| {
        l := l.(written := l.written + f[..io.count], torn := f[..io.count]);
        return Over(Err(Connection("write")));
      }
      l := l.(written := l.written + f, framed := l.framed + [text]);
      if io.Cut? {
        return Over(Err(Connection("flush")));
      }
      Show(text);
      end := Going;
    }

    /** `write_loop` when connected, `run_disconnected` otherwise. */
    method RunLoop(turns: seq<Turn>, connected: bool) returns (end: End)
      modifies this
      ensures (l, end) == Run(old(l), who, turns, connected, room)
    {
      end := Going;
      for i := 0 to |turns|
        invariant end == Going
        invariant Run(old(l), who, turns, connected, room) == Run(l, who, turns[i..], connected, room)
      {
        assert turns[i..][1..] == turns[i + 1..];
        match turns[i]
        case Arrives(text) =>
          if !l.closed { l := l.(inbox := l.inbox + [text]); }
        case SendersGone => l := l.(closed := true);
        case Shutdown =>
          DrainAndFlushAll();
          return Over(Ok(()));
        case ReaderDone =>
          if connected {
            DrainAndFlushAll();
            return Over(Ok(()));
          }
        case Receive(io) =>
          if l.inbox == [] {
            if l.closed {
              DrainAndFlushAll();
              return Over(Ok(()));
            }
          } else if connected {
            end := ProcessOutgoing(io);
            if end.Over? { return; }
          } else {
            var text := l.inbox[0];
            l := l.(inbox := l.inbox[1..], drained := l.drained + [text]);
            Show(text);
          }
        case ReceiverDropped => return Over(Err(Connection("event receiver dropped")));
      }
    }
  }

  function Begin(inbox: seq<string>): Loop { Loop(inbox, false, 0, [], [], [], [], [], [], [], []) }

  lemma {:induction false} FlushKeepsInbox(l: Loop, room: nat -> bool)
    ensures Flush(l, room).inbox == l.inbox && Flush(l, room).pending == []
    ensures Flush(l, room).echoed == l.echoed
    ensures Flush(l, room).framed == l.framed && Flush(l, room).drained == l.drained
    ensures Flush(l, room).written == l.written && Flush(l, room).torn == l.torn && Flush(l, room).closed == l.closed
    decreases |l.pending|
  {
    if l.pending != [] && room(l.tries) { FlushKeepsInbox(Popped(l), room); }
  }

  // ---- conservation ----

  /** The messages the texts are to be shown as: from the joiner's id, under its name, with the text. */
  function Events(who: Who, texts: seq<string>): (es: seq<Event>)
    ensures |es| == |texts|
    ensures forall i :: 0 <= i < |es| ==> es[i] == Room.Message(who.id, who.name, texts[i])
  {
    seq(|texts|, i requires 0 <= i < |texts| => Room.Message(who.id, who.name, texts[i]))
  }

  lemma EventsSnoc(who: Who, texts: seq<string>, text: string)
    ensures Events(who, texts + [text]) == Events(who, texts) + [MakeEvent(who, text)]
  {
  }

  /** The bytes written are whole frames of the framed texts, then at most a torn one. */
  ghost predicate WroteFrames(l: Loop, who: Who) {
    && (forall i :: 0 <= i < |l.framed| ==> Wire.EncodeMessage(Chat(who, l.framed[i])).Ok?)
    && l.written == Concat(FramesOf(who, l.framed)) + l.torn
  }

  function FramesOf(who: Who, texts: seq<string>): seq<Bytes>
    requires forall i :: 0 <= i < |texts| ==> Wire.EncodeMessage(Chat(who, texts[i])).Ok?
  {
    Wire.Frames(Chats(who, texts))
  }

  function Chats(who: Who, texts: seq<string>): seq<Json.WireMessage> {
    seq(|texts|, i requires 0 <= i < |texts| => Chat(who, texts[i]))
  }

  /** Every echo is delivered, pending or dropped, exactly once. */
  ghost predicate Conserved(l: Loop, who: Who) {
    multiset(Events(who, l.echoed)) == multiset(l.delivered) + multiset(l.pending) + multiset(l.dropped)
  }

  lemma SameConserved(l: Loop, l': Loop, who: Who)
    requires Conserved(l, who)
    requires l'.echoed == l.echoed && l'.delivered == l.delivered && l'.pending == l.pending && l'.dropped == l.dropped
    ensures Conserved(l', who)
  {
  }

  lemma EchoConserves(l: Loop, who: Who, text: string, room: nat -> bool)
    requires Conserved(l, who)
    ensures Conserved(Echo(l, who, text, room), who)
  {
    EventsSnoc(who, l.echoed, text);
  }

  lemma {:induction false} FlushConserves(l: Loop, who: Who, room: nat -> bool)
    requires Conserved(l, who)
    ensures Conserved(Flush(l, room), who)
    decreases |l.pending|
  {
    hide Conserved;
    if l.pending == [] {
    } else if room(l.tries) {
      PopConserves(l, who);
      FlushConserves(Popped(l), who, room);
    } else {
      DropConserves(l, who);
    }
  }

  lemma PopConserves(l: Loop, who: Who)
    requires Conserved(l, who) && l.pending != []
    ensures Conserved(Popped(l), who)
  {
    hide Events;
    var n := |l.pending| - 1;
    assert l.pending == l.pending[..n] + [l.pending[n]];
  }

  lemma DropConserves(l: Loop, who: Who)
    requires Conserved(l, who)
    ensures Conserved(Discarded(l), who)
  {
    hide Events;
  }

  lemma {:induction false} DrainConserves(l: Loop, who: Who, room: nat -> bool)
    requires Conserved(l, who)
    ensures Conserved(Drain(l, who, room), who)
    decreases |l.inbox|
  {
    hide Conserved, Events, Echo;
    if l.inbox != [] {
      var taken := l.(inbox := l.inbox[1..], drained := l.drained + [l.inbox[0]]);
      SameConserved(l, taken, who);
      EchoConserves(taken, who, l.inbox[0], room);
      EchoKeeps(taken, who, l.inbox[0], room);
      DrainConserves(Echo(taken, who, l.inbox[0], room), who, room);
    }
  }

  /** The drain takes the whole channel, in order, and shows each text once. */
  lemma {:induction false} DrainTakesAll(l: Loop, who: Who, room: nat -> bool)
    ensures var d := Drain(l, who, room);
      && d.inbox == [] && d.drained == l.drained + l.inbox && d.echoed == l.echoed + l.inbox
      && d.framed == l.framed && d.written == l.written && d.torn == l.torn && d.closed == l.closed
    decreases |l.inbox|
  {
    hide Echo;
    if l.inbox != [] {
      var taken := l.(inbox := l.inbox[1..], drained := l.drained + [l.inbox[0]]);
      EchoKeeps(taken, who, l.inbox[0], room);
      DrainTakesAll(Echo(taken, who, l.inbox[0], room), who, room);
      assert l.inbox == [l.inbox[0]] + l.inbox[1..];
    }
  }

  lemma DrainAndFlushTakesAll(l: Loop, who: Who, room: nat -> bool)
    requires Conserved(l, who)
    ensures var d := DrainAndFlush(l, who, room);
      && Conserved(d, who) && d.inbox == [] && d.pending == []
      && d.drained == l.drained + l.inbox && d.echoed == l.echoed + l.inbox
      && d.framed == l.framed && d.written == l.written && d.torn == l.torn
  {
    hide Conserved, Drain, Flush;
    DrainTakesAll(l, who, room);
    DrainConserves(l, who, room);
    FlushConserves(Drain(l, who, room), who, room);
    FlushKeepsInbox(Drain(l, who, room), room);
  }

  /** How the loop's variables relate while it goes on. */
  ghost predicate Sound(l: Loop, who: Who, connected: bool) {
    && Conserved(l, who) && WroteFrames(l, who) && l.torn == [] && l.dropped == []
    && (connected ==> l.drained == [] && l.echoed == l.framed)
    && (!connected ==> l.framed == [] && l.echoed == l.drained)
  }

  /** The texts the loop has dealt with or still has before it, in order. */
  function Line(l: Loop): seq<string> { l.framed + l.drained + l.inbox }

  function Arrival(l: Loop, t: Turn): seq<string> { if t.Arrives? && !l.closed then [t.text] else [] }

  /** How a loop may end: properly, with everything taken, shown and accounted for, or with an error. */
  ghost predicate Ended(l: Loop, who: Who, connected: bool, result: Result<(), ChatError>) {
    && Conserved(l, who) && WroteFrames(l, who) && Wire.TakeAll(l.torn).frames == []
    && (result.Ok? ==> l.inbox == [] && l.pending == [] && l.torn == [])
    && (result.Err? ==> l.dropped == []) && (!connected ==> l.framed == [])
    && (result.Ok? ==> l.echoed == if connected then l.framed + l.drained else l.drained)
  }

  lemma FramesOfSnoc(who: Who, texts: seq<string>, text: string)
    requires forall i :: 0 <= i < |texts| ==> Wire.EncodeMessage(Chat(who, texts[i])).Ok?
    requires Wire.EncodeMessage(Chat(who, text)).Ok?
    ensures Concat(FramesOf(who, texts + [text]))
        == Concat(FramesOf(who, texts)) + Wire.EncodeMessage(Chat(who, text)).value
  {
    hide Wire.EncodeMessage;
    var f := Wire.EncodeMessage(Chat(who, text)).value;
    assert FramesOf(who, texts + [text]) == FramesOf(who, texts) + [f];
    ConcatSnoc(FramesOf(who, texts), f);
  }

  lemma TornIsNoFrame(who: Who, text: string, n: nat)
    requires Wire.EncodeMessage(Chat(who, text)).Ok? && n < |Wire.EncodeMessage(Chat(who, text)).value|
    ensures Wire.TakeAll(Wire.EncodeMessage(Chat(who, text)).value[..n]).frames == []
  {
    hide Wire.EncodeMessage, Wire.IsFrame, Wire.TakeAll;
    Wire.EncodingIsFrame(Chat(who, text));
    Wire.CutFrames(Wire.EncodeMessage(Chat(who, text)).value, n);
  }

  lemma NothingTorn()
    ensures Wire.TakeAll([]).frames == []
  {
    Wire.NothingLeft();
  }

  lemma EchoKeeps(l: Loop, who: Who, text: string, room: nat -> bool)
    ensures var e := Echo(l, who, text, room);
      && e.echoed == l.echoed + [text] && e.framed == l.framed && e.drained == l.drained && e.inbox == l.inbox
      && e.written == l.written && e.torn == l.torn && e.closed == l.closed && e.dropped == l.dropped
  {
  }

  lemma ProcessSound(l: Loop, who: Who, io: Io, room: nat -> bool)
    requires Sound(l, who, true) && l.inbox != []
    ensures var r := Process(l, who, io, room);
      && (r.1.Going? ==> Sound(r.0, who, true) && Line(r.0) == Line(l))
      && (r.1.Over? ==> r.1.result.Err? && Ended(r.0, who, true, r.1.result))
      && r.0.framed <= Line(l)
  {
    hide Wire.EncodeMessage, Wire.TakeAll, Conserved, Echo, Events, FramesOf, Concat;
    var text := l.inbox[0];
    NothingTorn();
    if Process(l, who, io, room).1.Over? { SameConserved(l, Process(l, who, io, room).0, who); }
    if Wire.EncodeMessage(Chat(who, text)).Ok? {
      var f := Wire.EncodeMessage(Chat(who, text)).value;
      FramesOfSnoc(who, l.framed, text);
      assert l.written + f == Concat(FramesOf(who, l.framed)) + f;
      if io.Cut? && io.count < |f| {
        TornIsNoFrame(who, text, io.count);
      }
      var out := l.(inbox := l.inbox[1..], written := l.written + f, framed := l.framed + [text]);
      SameConserved(l, out, who);
      EchoConserves(out, who, text, room);
      EchoKeeps(out, who, text, room);
      assert l.framed + [] + l.inbox == (l.framed + [text]) + [] + l.inbox[1..];
    }
  }

  lemma ExitSound(l: Loop, who: Who, connected: bool, room: nat -> bool)
    requires Sound(l, who, connected)
    ensures Ended(DrainAndFlush(l, who, room), who, connected, Ok(()))
    ensures Line(DrainAndFlush(l, who, room)) == Line(l)
  {
    hide Conserved, DrainAndFlush, FramesOf, Concat, Wire.TakeAll, Wire.EncodeMessage;
    DrainAndFlushTakesAll(l, who, room);
    NothingTorn();
    assert l.framed + (l.drained + l.inbox) + [] == Line(l);
  }

  /** A disconnected loop shows a text without writing it. */
  lemma ShowSound(l: Loop, who: Who, room: nat -> bool)
    requires Sound(l, who, false) && l.inbox != []
    ensures var e := Echo(l.(inbox := l.inbox[1..], drained := l.drained + [l.inbox[0]]), who, l.inbox[0], room);
            Sound(e, who, false) && Line(e) == Line(l)
  {
    hide Conserved, Echo, FramesOf, Concat, Wire.EncodeMessage;
    var taken := l.(inbox := l.inbox[1..], drained := l.drained + [l.inbox[0]]);
    SameConserved(l, taken, who);
    EchoConserves(taken, who, l.inbox[0], room);
    EchoKeeps(taken, who, l.inbox[0], room);
    assert l.framed + (l.drained + [l.inbox[0]]) + l.inbox[1..] == Line(l);
  }

  lemma StepSound(l: Loop, who: Who, t: Turn, connected: bool, room: nat -> bool)
    requires Sound(l, who, connected)
    ensures var r := Step(l, who, t, connected, room);
      && (r.1.Going? ==> Sound(r.0, who, connected))
      && (r.1.Over? ==> Ended(r.0, who, connected, r.1.result))
      && (r.1.Going? || r.1.result.Ok? ==> Line(r.0) == Line(l) + Arrival(l, t))
      && r.0.framed <= Line(l) + Arrival(l, t)
  {
    hide Conserved, DrainAndFlush, Process, Echo, FramesOf, Concat, Ended, Wire.TakeAll, Wire.EncodeMessage;
    ExitSound(l, who, connected, room);
    assert Line(l) + [] == Line(l);
    match t
    case Arrives(text) =>
      if !l.closed {
        SameConserved(l, l.(inbox := l.inbox + [text]), who);
        assert l.framed + l.drained + (l.inbox + [text]) == Line(l) + [text];
      }
    case SendersGone => SameConserved(l, l.(closed := true), who);
    case Receive(io) =>
      if l.inbox != [] {
        if connected { ProcessSound(l, who, io, room); } else { ShowSound(l, who, room); }
      }
    case ReceiverDropped => DroppedSound(l, who, connected);
    case _ =>
  }

  lemma DroppedSound(l: Loop, who: Who, connected: bool)
    requires Sound(l, who, connected)
    ensures Ended(l, who, connected, Err(Connection("event receiver dropped")))
  {
    hide Conserved, FramesOf, Concat, Wire.TakeAll;
    NothingTorn();
  }

  lemma StepCloses(l: Loop, who: Who, t: Turn, connected: bool, room: nat -> bool)
    ensures var r := Step(l, who, t, connected, room);
            r.1.Going? ==> r.0.closed == (l.closed || t.SendersGone?)
  {
    hide DrainAndFlush, Wire.EncodeMessage;
  }

  /** The texts that arrive during the turns: all of them until the senders are gone. */
  function Arrivals(closed: bool, turns: seq<Turn>): seq<string>
    decreases |turns|
  {
    if turns == [] then []
    else
      var first := if turns[0].Arrives? && !closed then [turns[0].text] else [];
      first + Arrivals(closed || turns[0].SendersGone?, turns[1..])
  }

  /** What a run may end in, having seen the texts `seen` arrive. */
  ghost predicate Outcome(l: Loop, r: (Loop, End), who: Who, connected: bool, seen: seq<string>,
      arrivals: seq<string>) {
    && seen <= arrivals
    && (r.1.Going? ==> Sound(r.0, who, connected) && seen == arrivals)
    && (r.1.Over? ==> Ended(r.0, who, connected, r.1.result))
    && (r.1.Going? || r.1.result.Ok? ==> Line(r.0) == Line(l) + seen)
    && r.0.framed <= Line(l) + seen
  }

  lemma OutcomeAfter(l: Loop, l1: Loop, r: (Loop, End), who: Who, connected: bool, first: seq<string>,
                     seen: seq<string>, arrivals: seq<string>)
    requires Outcome(l1, r, who, connected, seen, arrivals) && Line(l1) == Line(l) + first
    ensures Outcome(l, r, who, connected, first + seen, first + arrivals)
  {
    hide Sound, Ended, Line;
    assert Line(l) + (first + seen) == Line(l) + first + seen;
  }

  /** For every schedule. While the loop goes on, every text shown is an event delivered or pending, the
      bytes written are exactly the frames of the texts dealt with, and nothing that arrived is missing
      or out of order. On an `Ok` exit nothing is pending, the bytes are exactly the frames of a prefix
      W of the received texts, the echoes attempted are W and then the texts drained at the end, each
      once, and every echo was delivered or dropped. On an error the bytes may end in a torn frame. */
  lemma {:induction false} RunSound(l: Loop, who: Who, turns: seq<Turn>, connected: bool, room: nat -> bool)
      returns (seen: seq<string>)
    requires Sound(l, who, connected)
    ensures Outcome(l, Run(l, who, turns, connected, room), who, connected, seen, Arrivals(l.closed, turns))
    decreases |turns|
  {
    hide Sound, Ended, Step, Line;
    seen := [];
    if turns == [] {
      LineNil(l);
    } else {
      var r := Step(l, who, turns[0], connected, room);
      StepSound(l, who, turns[0], connected, room);
      seen := Arrival(l, turns[0]);
      if r.1.Going? {
        StepCloses(l, who, turns[0], connected, room);
        var more := RunSound(r.0, who, turns[1..], connected, room);
        OutcomeAfter(l, r.0, Run(r.0, who, turns[1..], connected, room), who, connected, seen, more,
                     Arrivals(r.0.closed, turns[1..]));
        seen := seen + more;
      }
    }
  }

  lemma LineNil(l: Loop)
    ensures Line(l) + [] == Line(l) && l.framed <= Line(l)
  {
  }

  lemma BeginSound(who: Who, inbox: seq<string>, connected: bool)
    ensures Sound(Begin(inbox), who, connected)
  {
    hide Wire.EncodeMessage;
    assert Concat(FramesOf(who, [])) == [];
  }

  /** The contract of a connected run from its start, spelled out: W is `framed`. */
  lemma ConnectedRun(who: Who, inbox: seq<string>, turns: seq<Turn>, room: nat -> bool)
    ensures var (l, end) := Run(Begin(inbox), who, turns, true, room);
      var texts := inbox + Arrivals(false, turns);
      && multiset(Events(who, l.echoed)) == multiset(l.delivered) + multiset(l.pending) + multiset(l.dropped)
      && (forall i :: 0 <= i < |l.framed| ==> Wire.EncodeMessage(Chat(who, l.framed[i])).Ok?)
      && l.written == Concat(FramesOf(who, l.framed)) + l.torn && Wire.TakeAll(l.torn).frames == []
      && l.framed <= texts
      && (end.Going? ==> l.torn == [] && l.dropped == [] && l.echoed == l.framed && l.framed + l.inbox == texts)
      && (end == Over(Ok(())) ==>
           l.torn == [] && l.pending == [] && l.echoed == l.framed + l.drained && l.framed + l.drained <= texts)
  {
    hide Wire.EncodeMessage, Wire.TakeAll, Run, Events, FramesOf, Concat;
    BeginSound(who, inbox, true);
    var seen := RunSound(Begin(inbox), who, turns, true, room);
    NothingTorn();
    assert Line(Begin(inbox)) == inbox;
    var (l, end) := Run(Begin(inbox), who, turns, true, room);
    assert l.framed <= inbox + seen <= inbox + Arrivals(false, turns);
    if end.Going? {
      assert l.framed + [] + l.inbox == l.framed + l.inbox;
    } else if end.result.Ok? {
      assert l.framed + l.drained + [] == l.framed + l.drained;
    }
  }

  // ---- the final flush, and the case without loss ----

  function Reversed(es: seq<Event>): (r: seq<Event>)
    ensures |r| == |es| && forall i :: 0 <= i < |r| ==> r[i] == es[|es| - 1 - i]
  {
    if es == [] then [] else [es[|es| - 1]] + Reversed(es[..|es| - 1])
  }

  /** `r` is what becomes of `l` by flushing into `k` slots: the last min(k, n) pending events are
      delivered in reverse, the rest is dropped. */
  ghost predicate Emptied(l: Loop, r: Loop, k: nat) {
    var n := |l.pending|;
    var m := if k < n then k else n;
    && r.delivered == l.delivered + Reversed(l.pending[n - m..])
    && r.dropped == l.dropped + l.pending[..n - m]
    && r.pending == []
  }

  /** Flushing into `k` free slots delivers the last min(k, n) pending events in reverse and drops the
      rest. */
  lemma {:induction false} FlushIntoSlots(l: Loop, room: nat -> bool, k: nat)
    requires (forall i: nat :: l.tries <= i < l.tries + k ==> room(i)) && !room(l.tries + k)
    ensures Emptied(l, Flush(l, room), k)
    decreases |l.pending|
  {
    hide Emptied;
    if l.pending == [] || k == 0 {
      EmptiedAtOnce(l, k);
    } else {
      FlushIntoSlots(Popped(l), room, k - 1);
      EmptiedNext(l, Flush(Popped(l), room), k);
    }
  }

  lemma EmptiedAtOnce(l: Loop, k: nat)
    ensures l.pending == [] ==> Emptied(l, l, k)
    ensures k == 0 ==> Emptied(l, Discarded(l), k)
  {
    var n := |l.pending|;
    assert l.pending[n..] == [] && l.pending[..n] == l.pending;
  }

  lemma EmptiedNext(l: Loop, r: Loop, k: nat)
    requires l.pending != [] && k > 0 && Emptied(Popped(l), r, k - 1)
    ensures Emptied(l, r, k)
  {
    hide Reversed;
    var n := |l.pending|;
    var m := if k < n then k else n;
    ReversedTail(l.pending, n - m);
    assert Popped(l).pending[..n - m] == l.pending[..n - m];
  }

  lemma ReversedTail(es: seq<Event>, i: nat)
    requires i < |es|
    ensures Reversed(es[i..]) == [es[|es| - 1]] + Reversed(es[..|es| - 1][i..])
  {
    var last := es[i..];
    assert last[..|last| - 1] == es[..|es| - 1][i..];
  }

  /** Everything shown so far has been delivered, in order. */
  ghost predicate InOrder(l: Loop, who: Who) {
    l.delivered == Events(who, l.echoed) && l.pending == [] && l.dropped == []
  }

  lemma EchoInOrder(l: Loop, who: Who, text: string, room: nat -> bool)
    requires InOrder(l, who) && room(l.tries)
    ensures InOrder(Echo(l, who, text, room), who)
  {
    EventsSnoc(who, l.echoed, text);
  }

  lemma {:induction false} DrainInOrder(l: Loop, who: Who, room: nat -> bool)
    requires InOrder(l, who) && forall n :: room(n)
    ensures InOrder(DrainAndFlush(l, who, room), who)
    decreases |l.inbox|
  {
    hide Events, Echo;
    if l.inbox != [] {
      var taken := l.(inbox := l.inbox[1..], drained := l.drained + [l.inbox[0]]);
      EchoInOrder(taken, who, l.inbox[0], room);
      EchoKeeps(taken, who, l.inbox[0], room);
      DrainInOrder(Echo(taken, who, l.inbox[0], room), who, room);
    }
  }

  lemma StepInOrder(l: Loop, who: Who, t: Turn, connected: bool, room: nat -> bool)
    requires InOrder(l, who) && forall n :: room(n)
    ensures InOrder(Step(l, who, t, connected, room).0, who)
  {
    hide Wire.EncodeMessage, Events, Echo, DrainAndFlush;
    DrainInOrder(l, who, room);
    if t.Receive? && l.inbox != [] {
      var text, rest := l.inbox[0], l.inbox[1..];
      EchoInOrder(l.(inbox := rest, drained := l.drained + [text]), who, text, room);
      if Wire.EncodeMessage(Chat(who, text)).Ok? {
        var f := Wire.EncodeMessage(Chat(who, text)).value;
        EchoInOrder(l.(inbox := rest, written := l.written + f, framed := l.framed + [text]), who, text, room);
      }
    }
  }

  /** If no `try_send` ever fails, the events delivered are exactly the echoes, in order, on every exit. */
  lemma {:induction false} LosslessRun(l: Loop, who: Who, turns: seq<Turn>, connected: bool, room: nat -> bool)
    requires InOrder(l, who) && forall n :: room(n)
    ensures InOrder(Run(l, who, turns, connected, room).0, who)
    decreases |turns|
  {
    hide Step, InOrder;
    if turns != [] {
      StepInOrder(l, who, turns[0], connected, room);
      var r := Step(l, who, turns[0], connected, room);
      if r.1.Going? { LosslessRun(r.0, who, turns[1..], connected, room); }
    }
  }

  /** Spelled out: if no `try_send` ever fails, what has been delivered are messages from the joiner's id,
      under its name, with the texts shown; and on an `Ok` exit those are all texts given to the loop, in
      order. */
  lemma LosslessEnds(who: Who, inbox: seq<string>, turns: seq<Turn>, connected: bool, room: nat -> bool)
      returns (seen: seq<string>)
    requires forall n :: room(n)
    ensures seen <= Arrivals(false, turns)
    ensures var (l, end) := Run(Begin(inbox), who, turns, connected, room);
      && |l.delivered| == |l.echoed|
      && (forall i :: 0 <= i < |l.echoed| ==> l.delivered[i] == Room.Message(who.id, who.name, l.echoed[i]))
      && (end == Over(Ok(())) ==> l.echoed == inbox + seen)
      && (end.Going? ==> seen == Arrivals(false, turns) && l.echoed + l.inbox == inbox + seen)
  {
    hide Wire.EncodeMessage, Wire.TakeAll, Run, FramesOf, Concat;
    BeginSound(who, inbox, connected);
    seen := RunSound(Begin(inbox), who, turns, connected, room);
    LosslessRun(Begin(inbox), who, turns, connected, room);
    var (l, end) := Run(Begin(inbox), who, turns, connected, room);
    assert Line(Begin(inbox)) == inbox;
    LineEchoed(l, connected, who, end);
  }

  lemma LineEchoed(l: Loop, connected: bool, who: Who, end: End)
    ensures Sound(l, who, connected) ==> l.echoed + l.inbox == Line(l)
    ensures Ended(l, who, connected, Ok(())) ==> l.echoed == Line(l)
  {
    hide Conserved, WroteFrames, Wire.TakeAll;
    assert l.framed + [] == l.framed && l.framed + l.drained + [] == l.framed + l.drained;
    assert [] + l.drained + l.inbox == l.drained + l.inbox && [] + l.drained + [] == l.drained;
  }

  // ---- which echoes are delivered at once, and which wait ----

  /** The events whose try finds room, or those whose does not, in order. */
  function Picked(es: seq<Event>, room: nat -> bool, found: bool): seq<Event> {
    if es == [] then []
    else
      var n := |es| - 1;
      Picked(es[..n], room, found) + (if room(n) == found then [es[n]] else [])
  }

  /** One try for each text shown; those that found room are delivered and the others wait, both in order. */
  ghost predicate Sorted(l: Loop, who: Who, room: nat -> bool) {
    && l.tries == |l.echoed| && l.dropped == []
    && l.delivered == Picked(Events(who, l.echoed), room, true)
    && l.pending == Picked(Events(who, l.echoed), room, false)
  }

  lemma EchoSorts(l: Loop, who: Who, text: string, room: nat -> bool)
    requires Sorted(l, who, room)
    ensures Sorted(Echo(l, who, text, room), who, room)
  {
    EventsSnoc(who, l.echoed, text);
    var es, e := Events(who, l.echoed), MakeEvent(who, text);
    assert (es + [e])[..|es|] == es;
    assert l.delivered + [] == l.delivered && l.pending + [] == l.pending;
  }

  lemma {:induction false} DrainSorts(l: Loop, who: Who, room: nat -> bool)
    requires Sorted(l, who, room)
    ensures Sorted(Drain(l, who, room), who, room) && Drain(l, who, room).inbox == []
    decreases |l.inbox|
  {
    hide Events, Echo, Picked;
    if l.inbox != [] {
      var taken := l.(inbox := l.inbox[1..], drained := l.drained + [l.inbox[0]]);
      EchoSorts(taken, who, l.inbox[0], room);
      EchoKeeps(taken, who, l.inbox[0], room);
      DrainSorts(Echo(taken, who, l.inbox[0], room), who, room);
    }
  }

  lemma StepSorts(l: Loop, who: Who, t: Turn, connected: bool, room: nat -> bool)
    requires Sorted(l, who, room)
    ensures var r := Step(l, who, t, connected, room);
      if r.1 == Over(Ok(())) then r.0 == Flush(Drain(l, who, room), room) else Sorted(r.0, who, room)
  {
    hide Wire.EncodeMessage, Events, Echo, Drain, Flush, Picked;
    if t.Receive? && l.inbox != [] {
      var text, rest := l.inbox[0], l.inbox[1..];
      EchoSorts(l.(inbox := rest, drained := l.drained + [text]), who, text, room);
      if Wire.EncodeMessage(Chat(who, text)).Ok? {
        var f := Wire.EncodeMessage(Chat(who, text)).value;
        EchoSorts(l.(inbox := rest, written := l.written + f, framed := l.framed + [text]), who, text, room);
      }
    }
  }

  /** While the loop goes on, and on every error, each text shown has had one try, in order: those that found
      room are delivered and the others wait, in the order shown. An `Ok` exit is the final flush, from the
      last-shown backwards, of such a state in which nothing is left to show. */
  lemma {:induction false} ShownInOrder(l: Loop, who: Who, turns: seq<Turn>, connected: bool, room: nat -> bool)
      returns (last: Loop)
    requires Sorted(l, who, room)
    ensures var (e, end) := Run(l, who, turns, connected, room);
      && Sorted(last, who, room)
      && (if end == Over(Ok(())) then e == Flush(last, room) && last.inbox == [] else e == last)
    decreases |turns|
  {
    hide Step, Sorted, Flush, Drain;
    last := l;
    if turns != [] {
      StepSorts(l, who, turns[0], connected, room);
      var r := Step(l, who, turns[0], connected, room);
      if r.1.Going? {
        last := ShownInOrder(r.0, who, turns[1..], connected, room);
      } else if r.1 == Over(Ok(())) {
        DrainSorts(l, who, room);
        last := Drain(l, who, room);
      } else {
        last := r.0;
      }
    }
  }

  lemma BeginSorted(who: Who, inbox: seq<string>, room: nat -> bool)
    ensures Sorted(Begin(inbox), who, room)
  {
  }

  // ---- when the loops end ----

  /** An arm that does not end the loop by itself. */
  predicate Passes(t: Turn, connected: bool) {
    !t.Shutdown? && !t.ReceiverDropped? && !(connected && t.ReaderDone?)
  }

  /** The loop goes on through every turn but these: shutdown, the end of the reader when connected, and the
      channel of texts closed and empty end it with `Ok`; the event receiver gone, and a write that fails
      or a text that does not encode when connected, with an error. `n` turns were taken. */
  lemma {:induction false} HowItEnds(l: Loop, who: Who, turns: seq<Turn>, connected: bool, room: nat -> bool)
      returns (n: nat)
    ensures n <= |turns|
    ensures var end := Run(l, who, turns, connected, room).1;
      && (forall i :: 0 <= i < n - 1 ==> Passes(turns[i], connected))
      && (end.Going? ==> n == |turns| && forall i :: 0 <= i < n ==> Passes(turns[i], connected))
      && (end.Over? ==> 0 < n && match turns[n - 1]
           case Shutdown => end.result == Ok(())
           case ReaderDone => connected && end.result == Ok(())
           case ReceiverDropped => end.result == Err(Connection("event receiver dropped"))
           case Receive(_) => connected || end.result == Ok(())
           case _ => false)
    decreases |turns|
  {
    hide DrainAndFlush, Wire.EncodeMessage, Echo;
    n := 0;
    if turns != [] {
      var r := Step(l, who, turns[0], connected, room);
      n := 1;
      if r.1.Going? {
        var rest := HowItEnds(r.0, who, turns[1..], connected, room);
        n := 1 + rest;
      }
    }
  }

  /** A text that is received goes out whole and is then shown; or it does not encode, or breaks off in the
      write or in the flush, and ends the loop with that error, shown nowhere. */
  lemma SendsExactly(l: Loop, who: Who, io: Io, room: nat -> bool)
    requires l.inbox != []
    ensures var (e, end) := Step(l, who, Receive(io), true, room);
      && e.inbox == l.inbox[1..] && e.drained == l.drained
      && match Wire.EncodeMessage(Json.WireMessage(Json.Chat, who.name, l.inbox[0]))
         case Err(fault) => end == Over(Err(fault)) && e.written == l.written && e.echoed == l.echoed
         case Ok(f) =>
           if io == Complete then end == Going && e.written == l.written + f && e.echoed == l.echoed + [l.inbox[0]]
           else if io.count < |f| then
             end == Over(Err(Connection("write"))) && e.written == l.written + f[..io.count] && e.echoed == l.echoed
           else end == Over(Err(Connection("flush"))) && e.written == l.written + f && e.echoed == l.echoed
  {
    hide Wire.EncodeMessage;
  }

  function Receives(n: nat): seq<Turn> { if n == 0 then [] else [Receive(Complete)] + Receives(n - 1) }

  /** Once its senders are gone the channel is worked off, a text a turn, and then the loop ends: connected,
      with every text on the wire; otherwise with every text shown. */
  lemma {:induction false} WorkedOff(l: Loop, who: Who, connected: bool, room: nat -> bool)
    requires l.closed
    requires connected ==> forall i :: 0 <= i < |l.inbox| ==> Wire.EncodeMessage(Chat(who, l.inbox[i])).Ok?
    ensures var (e, end) := Run(l, who, Receives(|l.inbox| + 1), connected, room);
      && end == Over(Ok(())) && e.echoed == l.echoed + l.inbox
      && (connected ==> e.framed == l.framed + l.inbox && e.drained == l.drained)
      && (!connected ==> e.drained == l.drained + l.inbox && e.framed == l.framed)
    decreases |l.inbox|
  {
    hide Run, Step, Wire.EncodeMessage, DrainAndFlush, Chat;
    if l.inbox == [] {
      ExitTakesAll(l, who, room);
      LastTurn(l, who, connected, room);
    } else {
      var e := Step(l, who, Receive(Complete), connected, room).0;
      WorkTurn(l, who, connected, room);
      WorkedOff(e, who, connected, room);
      Unfolded(l, who, Receive(Complete), Receives(|l.inbox|), connected, room);
      assert l.inbox == [l.inbox[0]] + l.inbox[1..];
      assert Receives(|l.inbox| + 1) == [Receive(Complete)] + Receives(|l.inbox|);
    }
  }

  lemma Unfolded(l: Loop, who: Who, t: Turn, turns: seq<Turn>, connected: bool, room: nat -> bool)
    requires Step(l, who, t, connected, room).1.Going?
    ensures Run(l, who, [t] + turns, connected, room)
         == Run(Step(l, who, t, connected, room).0, who, turns, connected, room)
  {
    hide Step;
    assert ([t] + turns)[1..] == turns;
  }

  lemma LastTurn(l: Loop, who: Who, connected: bool, room: nat -> bool)
    requires l.closed && l.inbox == []
    ensures Run(l, who, Receives(1), connected, room) == (DrainAndFlush(l, who, room), Over(Ok(())))
  {
    hide DrainAndFlush, Process, Echo;
    assert Receives(1)[0] == Receive(Complete);
  }

  /** One text worked off. */
  lemma WorkTurn(l: Loop, who: Who, connected: bool, room: nat -> bool)
    requires l.closed && l.inbox != [] && (connected ==> Wire.EncodeMessage(Chat(who, l.inbox[0])).Ok?)
    ensures var (e, end) := Step(l, who, Receive(Complete), connected, room);
      && end.Going? && e.closed && e.inbox == l.inbox[1..] && e.echoed == l.echoed + [l.inbox[0]]
      && e.framed == (if connected then l.framed + [l.inbox[0]] else l.framed)
      && e.drained == (if connected then l.drained else l.drained + [l.inbox[0]])
  {
    hide Wire.EncodeMessage, Echo, DrainAndFlush;
    var text := l.inbox[0];
    if connected {
      var f := Wire.EncodeMessage(Chat(who, text)).value;
      EchoKeeps(l.(inbox := l.inbox[1..], written := l.written + f, framed := l.framed + [text]), who, text, room);
    } else {
      EchoKeeps(l.(inbox := l.inbox[1..], drained := l.drained + [text]), who, text, room);
    }
  }

  lemma ExitTakesAll(l: Loop, who: Who, room: nat -> bool)
    ensures var d := DrainAndFlush(l, who, room);
      d.drained == l.drained + l.inbox && d.echoed == l.echoed + l.inbox && d.framed == l.framed
  {
    hide Drain, Flush;
    DrainTakesAll(l, who, room);
    FlushKeepsInbox(Drain(l, who, room), room);
  }

  // ---- the reader ----

  /** `handle_incoming_frame` over a sequence of frames: every frame that decodes becomes a message from
      its own name; any other is skipped. */
  function Incoming(frames: seq<Bytes>): seq<Event> {
    if frames == [] then []
    else
      var n := |frames| - 1;
      var m := Wire.DecodeMessage(frames[n]);
      Incoming(frames[..n]) + (if m.Ok? then [Seen(m.value)] else [])
  }

  function Seen(m: Json.WireMessage): Event { Room.Message(m.name, m.name, m.text) }

  /** One more frame, after any others: a message of any kind is reported from its own name; a frame that does
      not decode is skipped and does not end the reading. */
  lemma IncomingSnoc(frames: seq<Bytes>, f: Bytes)
    ensures var read := Wire.DecodeMessage(f);
      Incoming(frames + [f])
      == Incoming(frames)
         + (if read.Ok? then [Room.Message(read.value.name, read.value.name, read.value.text)] else [])
  {
    hide Wire.DecodeMessage;
    assert (frames + [f])[..|frames|] == frames;
  }

  lemma OneFrameOn(frames: seq<Bytes>, before: Bytes, f: Bytes, after: Bytes)
    requires Wire.TakeFrame(before) == Wire.Taken(Ok(f), after)
    ensures frames + Wire.TakeAll(before).frames == (frames + [f]) + Wire.TakeAll(after).frames
    ensures |after| < |before|
  {
    hide Wire.TakeFrame;
    assert before == f + after;
  }

  lemma NoFrameOn(frames: seq<Bytes>, before: Bytes)
    requires Wire.TakeFrame(before).result.Err?
    ensures frames + Wire.TakeAll(before).frames == frames
  {
    hide Wire.TakeFrame;
  }

  /** `reader_loop`: frames until the first error. */
  method ReaderLoop(stream: Stream.ByteStream) returns (events: seq<Event>)
    requires stream.Valid()
    modifies stream`incoming
    ensures stream.Valid() && events == Incoming(Wire.TakeAll(old(stream.Contents())).frames)
  {
    hide Wire.DecodeMessage, Wire.TakeFrame, Wire.TakeAll, Incoming, Concat;
    ghost var all := stream.Contents();
    ghost var frames: seq<Bytes> := [];
    events := [];
    assert [] + Wire.TakeAll(all).frames == Wire.TakeAll(all).frames;
    NoEvents();
    while true
      invariant stream.Valid() && events == Incoming(frames)
      invariant frames + Wire.TakeAll(stream.Contents()).frames == Wire.TakeAll(all).frames
      decreases |stream.Contents()|
    {
      ghost var before := stream.Contents();
      var r := stream.ReadFrame();
      if r.Err? {
        NoFrameOn(frames, before);
        return;
      }
      OneFrameOn(frames, before, r.value, stream.Contents());
      IncomingSnoc(frames, r.value);
      frames := frames + [r.value];
      var m := Wire.DecodeMessage(r.value);
      if m.Ok? {
        events := events + [Seen(m.value)];
      }
    }
  }

  lemma NoEvents()
    ensures Incoming([]) == []
  {
  }
}
