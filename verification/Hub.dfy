/** `hub.rs` after the handshake: `Hub::reader_task` and `Hub::writer_task` of one peer. */
module Hub {
  import opened Basics
  import opened Json
  import opened Stream
  import Wire

  const CAPACITY := 256

  /** The events on the broadcast channel; `Other` are the ones the writer passes over. */
  datatype Event =
    | Message(from: string, name: string, text: string)
    | PeerJoin(id: string, name: string)
    | PeerLeave(id: string)
    | Other

  // ---- the reader ----

  /** What a reader does with its frames: sends to the owner of the hub, broadcasts, and answers to be
      written to its own peer. */
  datatype Relay = Relay(forwarded: seq<WireMessage>, broadcast: seq<Event>, answers: seq<Bytes>)

  const PONG := WireMessage(Pong, "", "")

  lemma PongEncodes()
    ensures Wire.EncodeMessage(PONG).Ok?
  {
    Wire.SizeBounds(PONG);
  }

  /** The relaying of frames in order, up to the first that does not decode. */
  function Relayed(id: string, name: string, frames: seq<Bytes>): Relay {
    if frames == [] then Relay([], [], [])
    else match Wire.DecodeMessage(frames[0])
      case Err(_) => Relay([], [], [])
      case Ok(m) =>
        var rest := Relayed(id, name, frames[1..]);
        if m.kind == Ping then
          PongEncodes();
          rest.(answers := [Wire.EncodeMessage(PONG).value] + rest.answers)
        else
          Relay([m] + rest.forwarded,
                (if m.kind == Chat then [Message(id, name, m.text)] else []) + rest.broadcast,
                rest.answers)
  }

  /** `reader_task`: it ends with the stream, with silence beyond the time limit, or at a bad frame. */
  method ReaderTask(stream: ByteStream, id: string, name: string)
    returns (forwarded: seq<WireMessage>, broadcast: seq<Event>, answers: seq<Bytes>)
    requires stream.Valid()
    modifies stream`incoming
    ensures stream.Valid()
    ensures Relay(forwarded, broadcast, answers) == Relayed(id, name, Wire.TakeAll(old(stream.Contents())).frames)
  {
    hide Wire.TakeFrame, Wire.DecodeMessage, Wire.EncodeMessage, Wire.TakeAll, Concat;
    forwarded, broadcast, answers := [], [], [];
    ghost var all := Wire.TakeAll(stream.Contents()).frames;
    while true
      invariant stream.Valid()
      invariant var rest := Relayed(id, name, Wire.TakeAll(stream.Contents()).frames);
                Relayed(id, name, all)
                == Relay(forwarded + rest.forwarded, broadcast + rest.broadcast, answers + rest.answers)
      decreases |stream.Contents()|
    {
      Unrolled(stream.Contents());
      ghost var frames := Wire.TakeAll(stream.Contents()).frames;
      var frame := stream.ReadFrame();
      if frame.Err? {
        return;
      }
      assert frames[0] == frame.value && frames[1..] == Wire.TakeAll(stream.Contents()).frames;
      var m := Wire.DecodeMessage(frame.value);
      if m.Err? {
        return;
      }
      if m.value.kind == Ping {
        var pong := Wire.EncodeMessage(PONG);
        PongEncodes();
        if pong.Ok? {
          answers := answers + [pong.value];
        }
      } else {
        forwarded := forwarded + [m.value];
        if m.value.kind == Chat {
          broadcast := broadcast + [Message(id, name, m.value.text)];
        }
      }
    }
  }

  // ---- the writer ----

  /** The message an event is written as, if it is written at all. */
  function ToWire(e: Event): Option<WireMessage> {
    match e
    case Message(_, name, text) => Some(ChatMessage(name, text))
    case PeerJoin(_, name) => Some(SystemMessage(name + " joined"))
    case PeerLeave(id) => Some(SystemMessage(id + " left"))
    case Other => None
  }

  function FrameOf(e: Event): Option<Bytes> {
    match ToWire(e)
    case None => None
    case Some(m) =>
      match Wire.EncodeMessage(m)
      case Err(_) => None
      case Ok(f) => Some(f)
  }

  /** Where a frame came from: the peer's own queue, or the broadcast at `pos`, taken when `queued`
      frames had ever been put into the queue. */
  datatype Source = Queue | Ring(pos: nat, queued: nat)

  /** One write: all of the frame, or the piece that got out before an error or the time limit. */
  datatype Write = Write(source: Source, frame: Bytes, sent: Bytes)

  predicate Whole(w: Write) { w.sent == w.frame }

  /** What became of a broadcast event. */
  datatype Fate = Tried | Unwritable | Overwritten(tail: nat)

  datatype Outcome = Succeeds | Fails(count: nat) | TimesOut(count: nat)

  /** What happens before one turn of the loop, and how a write in that turn would end. */
  datatype Moment =
    Moment(frames: seq<Bytes>, closeQueue: bool, events: seq<Event>, closeEvents: bool, outcome: Outcome)

  datatype Stop = QueueClosed | EventsClosed | WriteTimeout | StillWaiting

  function Frames(log: seq<Write>): (fs: seq<Bytes>)
    ensures |fs| == |log| && forall i :: 0 <= i < |log| ==> fs[i] == log[i].frame
  {
    seq(|log|, i requires 0 <= i < |log| => log[i].frame)
  }

  function Pieces(log: seq<Write>): (ps: seq<Bytes>)
    ensures |ps| == |log| && forall i :: 0 <= i < |log| ==> ps[i] == log[i].sent
  {
    seq(|log|, i requires 0 <= i < |log| => log[i].sent)
  }

  /** The writes from the queue. */
  function Queued(log: seq<Write>): seq<Bytes> {
    if log == [] then []
    else Queued(log[..|log| - 1]) + if log[|log| - 1].source == Queue then [log[|log| - 1].frame] else []
  }

  /** The positions of the broadcasts written. */
  function Positions(log: seq<Write>): seq<nat> {
    if log == [] then []
    else Positions(log[..|log| - 1]) + if log[|log| - 1].source.Ring? then [log[|log| - 1].source.pos] else []
  }

  /** The positions whose fate is to be tried, the first fate being that of position `start`. */
  function TriedAt(start: nat, fates: seq<Fate>): seq<nat> {
    if fates == [] then []
    else TriedAt(start, fates[..|fates| - 1]) + if fates[|fates| - 1] == Tried then [start + |fates| - 1] else []
  }

  function Arrived(env: seq<Moment>): seq<Bytes> {
    if env == [] then [] else Arrived(env[..|env| - 1]) + env[|env| - 1].frames
  }

  function Happened(env: seq<Moment>): seq<Event> {
    if env == [] then [] else Happened(env[..|env| - 1]) + env[|env| - 1].events
  }

  /** A write is of what its source holds, and a broadcast is only taken when everything ever queued
      has been tried. */
  ghost predicate WriteTrue(log: seq<Write>, i: nat, events: seq<Event>)
    requires i < |log|
  {
    && log[i].sent <= log[i].frame
    && (log[i].source.Ring? ==>
      && log[i].source.pos < |events|
      && FrameOf(events[log[i].source.pos]) == Some(log[i].frame)
      && log[i].source.queued == |Queued(log[..i])|)
  }

  ghost predicate FateTrue(fate: Fate, pos: nat, events: seq<Event>) {
    && pos < |events|
    && match fate
       case Tried => FrameOf(events[pos]).Some?
       case Unwritable => FrameOf(events[pos]).None?
       case Overwritten(tail) => pos + 256 < tail <= |events|
  }

  ghost predicate LogTrue(log: seq<Write>, events: seq<Event>) {
    forall i :: 0 <= i < |log| ==> WriteTrue(log, i, events)
  }

  ghost predicate FatesTrue(fates: seq<Fate>, start: nat, events: seq<Event>) {
    forall i :: 0 <= i < |fates| ==> FateTrue(fates[i], start + i, events)
  }

  lemma LogSnoc(log: seq<Write>, w: Write, events: seq<Event>)
    requires LogTrue(log, events) && w.sent <= w.frame
    requires w.source.Ring? ==> (
      && w.source.pos < |events| && FrameOf(events[w.source.pos]) == Some(w.frame)
      && w.source.queued == |Queued(log)|)
    ensures LogTrue(log + [w], events)
    ensures Queued(log + [w]) == Queued(log) + if w.source == Queue then [w.frame] else []
    ensures Positions(log + [w]) == Positions(log) + if w.source.Ring? then [w.source.pos] else []
    ensures Concat(Pieces(log + [w])) == Concat(Pieces(log)) + w.sent
  {
    hide FrameOf;
    var all := log + [w];
    assert all[..|log|] == log;
    assert Pieces(all) == Pieces(log) + [w.sent];
    ConcatSnoc(Pieces(log), w.sent);
    forall i | 0 <= i < |all| ensures WriteTrue(all, i, events) {
      if i < |log| {
        assert WriteTrue(log, i, events) && all[..i] == log[..i];
      }
    }
  }

  lemma TriedSnoc(start: nat, fates: seq<Fate>, fate: Fate)
    ensures TriedAt(start, fates + [fate]) == TriedAt(start, fates) + if fate == Tried then [start + |fates|] else []
  {
    assert (fates + [fate])[..|fates|] == fates;
  }

  /** `n` fates of overwritten events. */
  function Lost(tail: nat, n: nat): (fs: seq<Fate>)
    ensures |fs| == n && forall i :: 0 <= i < n ==> fs[i] == Overwritten(tail)
  {
    seq(n, _ => Overwritten(tail))
  }

  lemma {:induction false} TriedLost(start: nat, fates: seq<Fate>, tail: nat, n: nat)
    ensures TriedAt(start, fates + Lost(tail, n)) == TriedAt(start, fates)
  {
    if n == 0 {
      assert fates + Lost(tail, 0) == fates;
    } else {
      assert fates + Lost(tail, n) == (fates + Lost(tail, n - 1)) + [Overwritten(tail)];
      TriedSnoc(start, fates + Lost(tail, n - 1), Overwritten(tail));
      TriedLost(start, fates, tail, n - 1);
    }
  }

  /** What has happened to a writer that subscribed at position `start`. */
  datatype Books = Books(
    start: nat, events: seq<Event>, fates: seq<Fate>,
    queuedEver: seq<Bytes>, queue: seq<Bytes>,
    log: seq<Write>, output: Bytes)

  /** The books are in order: the output is the pieces written; the writes from the queue are what was
      put into it and is no longer there, in order; the other writes are the broadcasts whose fate is
      to be tried, in order; and the writes and fates are what they claim to be. */
  ghost predicate Balanced(b: Books) {
    && b.output == Concat(Pieces(b.log))
    && b.queuedEver == Queued(b.log) + b.queue
    && Positions(b.log) == TriedAt(b.start, b.fates)
    && LogTrue(b.log, b.events)
    && FatesTrue(b.fates, b.start, b.events)
  }

  lemma AbsorbBalanced(b: Books, frames: seq<Bytes>, events: seq<Event>)
    requires Balanced(b)
    ensures Balanced(b.(queuedEver := b.queuedEver + frames, queue := b.queue + frames, events := b.events + events))
  {
    hide FrameOf;
    forall i | 0 <= i < |b.log| ensures WriteTrue(b.log, i, b.events + events) {
      assert WriteTrue(b.log, i, b.events);
    }
    forall i | 0 <= i < |b.fates| ensures FateTrue(b.fates[i], b.start + i, b.events + events) {
      assert FateTrue(b.fates[i], b.start + i, b.events);
    }
  }

  lemma QueueBalanced(b: Books, piece: Bytes)
    requires Balanced(b) && b.queue != [] && piece <= b.queue[0]
    ensures Balanced(b.(queue := b.queue[1..],
                        log := b.log + [Write(Queue, b.queue[0], piece)], output := b.output + piece))
  {
    hide FrameOf, LogTrue;
    LogSnoc(b.log, Write(Queue, b.queue[0], piece), b.events);
    assert b.queue == [b.queue[0]] + b.queue[1..];
  }

  lemma FatesSnoc(b: Books, fate: Fate)
    requires FatesTrue(b.fates, b.start, b.events) && FateTrue(fate, b.start + |b.fates|, b.events)
    ensures FatesTrue(b.fates + [fate], b.start, b.events)
  {
    hide FateTrue;
    forall i | 0 <= i < |b.fates + [fate]| ensures FateTrue((b.fates + [fate])[i], b.start + i, b.events) {
      if i < |b.fates| { assert FateTrue(b.fates[i], b.start + i, b.events); }
    }
  }

  lemma SkipBalanced(b: Books)
    requires Balanced(b) && b.start + |b.fates| < |b.events| && FrameOf(b.events[b.start + |b.fates|]).None?
    ensures Balanced(b.(fates := b.fates + [Unwritable]))
  {
    hide FrameOf, LogTrue, FatesTrue;
    FatesSnoc(b, Unwritable);
    TriedSnoc(b.start, b.fates, Unwritable);
  }

  lemma BroadcastBalanced(b: Books, frame: Bytes, piece: Bytes)
    requires Balanced(b) && b.queue == [] && b.start + |b.fates| < |b.events|
    requires FrameOf(b.events[b.start + |b.fates|]) == Some(frame) && piece <= frame
    ensures Balanced(b.(fates := b.fates + [Tried], output := b.output + piece,
                        log := b.log + [Write(Ring(b.start + |b.fates|, |b.queuedEver|), frame, piece)]))
  {
    hide FrameOf, LogTrue, FatesTrue, TriedAt, Positions, Queued, Pieces, Concat;
    FatesSnoc(b, Tried);
    TriedSnoc(b.start, b.fates, Tried);
    assert Queued(b.log) + b.queue == Queued(b.log);
    LogSnoc(b.log, Write(Ring(b.start + |b.fates|, |b.queuedEver|), frame, piece), b.events);
  }

  lemma LagBalanced(b: Books)
    requires Balanced(b) && |b.events| - (b.start + |b.fates|) > CAPACITY
    ensures Balanced(b.(fates := b.fates + Lost(|b.events|, |b.events| - CAPACITY - b.start - |b.fates|)))
  {
    hide FrameOf, LogTrue;
    var lost := Lost(|b.events|, |b.events| - CAPACITY - b.start - |b.fates|);
    TriedLost(b.start, b.fates, |b.events|, |lost|);
    forall i | 0 <= i < |b.fates + lost| ensures FateTrue((b.fates + lost)[i], b.start + i, b.events) {
      if i < |b.fates| { assert FateTrue(b.fates[i], b.start + i, b.events); }
    }
  }

  /** The state of `writer_task`: its queue, its place `next` in the broadcast channel (of whose events
      the channel keeps the last 256), and what it has written. */
  class Writer {
    var queue: seq<Bytes>
    var queueOpen: bool
    var events: seq<Event>
    var eventsOpen: bool
    var next: nat
    var output: Bytes
    ghost const start: nat
    ghost var queuedEver: seq<Bytes>
    ghost var log: seq<Write>
    ghost var fates: seq<Fate>

    ghost function View(): Books
      reads this
    {
      Books(start, events, fates, queuedEver, queue, log, output)
    }

    ghost predicate Valid()
      reads this
    {
      next == start + |fates| <= |events| && Balanced(View())
    }

    /** A subscription to a channel that has carried `past`. */
    constructor (past: seq<Event>)
      ensures Valid() && View() == Books(|past|, past, [], [], [], [], []) && queueOpen && eventsOpen
    {
      queue, queueOpen, events, eventsOpen := [], true, past, true;
      next, start, output := |past|, |past|, [];
      queuedEver, log, fates := [], [], [];
    }

    /** The world moves between two turns of the loop. */
    method Absorb(m: Moment)
      requires Valid()
      modifies this`queue, this`queueOpen, this`events, this`eventsOpen, this`queuedEver
      ensures Valid()
      ensures queue == old(queue) + m.frames && queuedEver == old(queuedEver) + m.frames
      ensures events == old(events) + m.events
      ensures queueOpen == (old(queueOpen) && !m.closeQueue) && eventsOpen == (old(eventsOpen) && !m.closeEvents)
    {
      hide Balanced;
      AbsorbBalanced(View(), m.frames, m.events);
      queue, queuedEver, events := queue + m.frames, queuedEver + m.frames, events + m.events;
      queueOpen, eventsOpen := queueOpen && !m.closeQueue, eventsOpen && !m.closeEvents;
    }

    /** One write under a time limit. An error goes unnoticed, only the limit is seen. */
    method Put(ghost source: Source, f: Bytes, outcome: Outcome) returns (timedOut: bool, ghost piece: Bytes)
      modifies this`output, this`log
      ensures piece <= f && output == old(output) + piece && log == old(log) + [Write(source, f, piece)]
      ensures timedOut == outcome.TimesOut? && (outcome.Succeeds? ==> piece == f)
    {
      var count := match outcome case Succeeds => |f| case Fails(n) => n case TimesOut(n) => n;
      var sent := f[..if count < |f| then count else |f|];
      output := output + sent;
      piece := sent;
      log := log + [Write(source, f, piece)];
      timedOut := outcome.TimesOut?;
    }

    /** One more write, whole unless the outcome says otherwise. */
    ghost predicate Extended(before: seq<Write>, outcome: Outcome)
      reads this
    {
      && |log| == |before| + 1 && before <= log
      && (outcome.Succeeds? ==> Whole(log[|before|]))
    }

    /** The arm for the peer's own queue. */
    method TakeQueued(outcome: Outcome) returns (timedOut: bool)
      requires Valid() && queue != []
      modifies this`queue, this`output, this`log
      ensures Valid() && Extended(old(log), outcome)
      ensures queue == old(queue)[1..] && timedOut == outcome.TimesOut?
    {
      hide Balanced;
      ghost var b := View();
      var frame := queue[0];
      queue := queue[1..];
      ghost var piece;
      timedOut, piece := Put(Queue, frame, outcome);
      QueueBalanced(b, piece);
    }

    /** The arm for the broadcast channel. */
    method TakeBroadcast(outcome: Outcome) returns (timedOut: bool)
      requires Valid() && queue == [] && next < |events|
      modifies this`next, this`fates, this`output, this`log
      ensures Valid() && (log == old(log) || Extended(old(log), outcome))
      ensures next > old(next) && (timedOut ==> outcome.TimesOut?)
      ensures |events| - next <= 256
      ensures |events| - old(next) <= 256 ==> (
        && next == old(next) + 1 && (FrameOf(events[old(next)]).Some? ==> Extended(old(log), outcome))
        && timedOut == (FrameOf(events[old(next)]).Some? && outcome.TimesOut?))
    {
      hide Balanced, FrameOf;
      ghost var b := View();
      timedOut := false;
      if |events| - next > CAPACITY {
        LagBalanced(b);
        fates := fates + Lost(|events|, |events| - CAPACITY - next);
        next := |events| - CAPACITY;
        return;
      }
      var frame := FrameOf(events[next]);
      match frame
      case None =>
        SkipBalanced(b);
        fates, next := fates + [Unwritable], next + 1;
      case Some(f) =>
        ghost var piece;
        timedOut, piece := Put(Ring(next, |queuedEver|), f, outcome);
        BroadcastBalanced(b, f, piece);
        fates, next := fates + [Tried], next + 1;
    }

    /** One turn of the `select!`: the queue comes first, and a channel counts as closed only once it
        is empty. The result says whether and why the loop ends. */
    method Turn(m: Moment) returns (stop: Option<Stop>)
      requires Valid()
      modifies this`queue, this`queueOpen, this`events, this`eventsOpen, this`queuedEver
      modifies this`next, this`fates, this`output, this`log
      ensures Valid() && (log == old(log) || Extended(old(log), m.outcome))
      ensures queuedEver == old(queuedEver) + m.frames && events == old(events) + m.events
      ensures queueOpen == (old(queueOpen) && !m.closeQueue) && eventsOpen == (old(eventsOpen) && !m.closeEvents)
      ensures stop == Some(QueueClosed) || stop == Some(EventsClosed) ==> queue == []
      ensures stop == Some(EventsClosed) ==> next == |events|
      ensures stop == Some(WriteTimeout) ==> m.outcome.TimesOut?
      ensures stop != Some(StillWaiting)
      ensures old(queue) + m.frames != [] ==> (
        && queue == (old(queue) + m.frames)[1..] && Extended(old(log), m.outcome) && next == old(next)
        && stop == (if m.outcome.TimesOut? then Some(WriteTimeout) else None))
      ensures old(queue) + m.frames == [] && !queueOpen ==> stop == Some(QueueClosed)
      ensures old(queue) + m.frames == [] && queueOpen && old(next) < |events| ==> (
        && next > old(next) && |events| - next <= 256 && stop in {None, Some(WriteTimeout)})
      ensures old(queue) + m.frames == [] && queueOpen && old(next) == |events| ==>
        stop == (if eventsOpen then None else Some(EventsClosed))
    {
      hide Balanced, Extended;
      Absorb(m);
      var timedOut := false;
      if queue != [] {
        timedOut := TakeQueued(m.outcome);
      } else if !queueOpen {
        return Some(QueueClosed);
      } else if next < |events| {
        timedOut := TakeBroadcast(m.outcome);
      } else if !eventsOpen {
        return Some(EventsClosed);
      }
      stop := if timedOut then Some(WriteTimeout) else None;
    }

    /** `writer_task`, while the world moves as `env` says. */
    method Run(env: seq<Moment>) returns (stop: Stop, turns: nat)
      requires Valid()
      modifies this
      ensures Valid() && turns <= |env| && old(log) <= log
      ensures queuedEver == old(queuedEver) + Arrived(env[..turns]) && events == old(events) + Happened(env[..turns])
      ensures AllSucceed(env[..turns]) ==> forall i :: |old(log)| <= i < |log| ==> Whole(log[i])
      ensures stop == QueueClosed || stop == EventsClosed ==> Queued(log) == queuedEver
      ensures stop == EventsClosed ==> |fates| == |events| - start
      ensures stop == WriteTimeout ==> turns > 0 && env[turns - 1].outcome.TimesOut?
      ensures stop == StillWaiting ==> turns == |env|
    {
      hide Balanced, Whole;
      turns := 0;
      while turns < |env|
        invariant Valid() && turns <= |env| && old(log) <= log
        invariant queuedEver == old(queuedEver) + Arrived(env[..turns])
        invariant events == old(events) + Happened(env[..turns])
        invariant AllSucceed(env[..turns]) ==> forall i :: |old(log)| <= i < |log| ==> Whole(log[i])
      {
        assert env[..turns + 1][..turns] == env[..turns];
        var ended := Turn(env[turns]);
        turns := turns + 1;
        if ended.Some? {
          if queue == [] { QueueEmptied(View()); }
          return ended.value, turns;
        }
      }
      stop := StillWaiting;
    }
  }

  lemma QueueEmptied(b: Books)
    requires Balanced(b) && b.queue == []
    ensures Queued(b.log) == b.queuedEver
  {
    hide LogTrue, FatesTrue;
    assert Queued(b.log) + b.queue == Queued(b.log);
  }

  predicate AllSucceed(env: seq<Moment>) { forall i :: 0 <= i < |env| ==> env[i].outcome.Succeeds? }

  // ---- what the peer reads ----

  lemma {:induction false} QueuedAre(log: seq<Write>, P: Bytes -> bool)
    requires forall i :: 0 <= i < |Queued(log)| ==> P(Queued(log)[i])
    ensures forall i :: 0 <= i < |log| && log[i].source == Queue ==> P(log[i].frame)
  {
    if log != [] {
      var n := |log| - 1;
      forall i | 0 <= i < |Queued(log[..n])| ensures P(Queued(log[..n])[i]) {
        assert Queued(log)[i] == Queued(log[..n])[i];
      }
      QueuedAre(log[..n], P);
      if log[n].source == Queue {
        assert P(Queued(log)[|Queued(log[..n])|]);
      }
      forall i | 0 <= i < |log| && log[i].source == Queue ensures P(log[i].frame) {
        if i < n { assert log[..n][i] == log[i]; }
      }
    }
  }

  lemma AllAreFrames(log: seq<Write>, events: seq<Event>)
    requires LogTrue(log, events) && Wire.AllFrames(Queued(log))
    ensures Wire.AllFrames(Frames(log))
  {
    hide Wire.IsFrame, Wire.EncodeMessage;
    QueuedAre(log, Wire.IsFrame);
    forall i | 0 <= i < |log| ensures Wire.IsFrame(Frames(log)[i]) {
      assert WriteTrue(log, i, events);
      if log[i].source.Ring? {
        Wire.EncodingIsFrame(ToWire(events[log[i].source.pos]).value);
      }
    }
  }

  lemma WholePrefix(log: seq<Write>, j: nat)
    requires Wire.AllFrames(Frames(log)) && j <= |log| && forall i :: 0 <= i < j ==> Whole(log[i])
    ensures var rest := Wire.TakeAll(Concat(Pieces(log)[j..]));
            Wire.TakeAll(Concat(Pieces(log))) == Wire.Reading(Frames(log)[..j] + rest.frames, rest.stop)
  {
    hide Wire.IsFrame, Wire.TakeAll;
    var fs, ps := Frames(log)[..j], Pieces(log);
    assert ps == fs + ps[j..];
    ConcatAppend(fs, ps[j..]);
    Wire.FramesThenRest(fs, Concat(ps[j..]));
  }

  /** The peer reads the frames of the writes up to the first that is cut short, in order and
      unaltered. If no write is cut it reads them all and stands on a frame boundary; if only the last
      one is, as when the writer gave up, it reads exactly the others. */
  lemma StreamIntegrity(b: Books, j: nat)
    requires Balanced(b) && Wire.AllFrames(b.queuedEver)
    requires j <= |b.log| && forall i :: 0 <= i < j ==> Whole(b.log[i])
    ensures Frames(b.log)[..j] <= Wire.TakeAll(b.output).frames
    ensures j == |b.log| ==> Wire.TakeAll(b.output) == Wire.Reading(Frames(b.log), WireFault(HeaderRead))
    ensures j + 1 == |b.log| && !Whole(b.log[j]) ==> Wire.TakeAll(b.output).frames == Frames(b.log)[..j]
  {
    hide Wire.IsFrame, Wire.TakeAll, FrameOf, FatesTrue;
    var log := b.log;
    forall i | 0 <= i < |Queued(log)| ensures Wire.IsFrame(Queued(log)[i]) {
      assert b.queuedEver[i] == Queued(log)[i];
    }
    AllAreFrames(log, b.events);
    WholePrefix(log, j);
    Wire.NothingLeft();
    if j == |log| {
      assert Pieces(log)[j..] == [];
      assert Frames(log)[..j] + [] == Frames(log);
    } else if j + 1 == |log| && !Whole(log[j]) {
      assert WriteTrue(log, j, b.events) && Wire.IsFrame(Frames(log)[j]);
      LastCut(log[j]);
      assert Pieces(log)[j..] == [log[j].sent];
      assert Frames(log)[..j] + [] == Frames(log)[..j];
    }
  }

  lemma LastCut(w: Write)
    requires Wire.IsFrame(w.frame) && w.sent <= w.frame && !Whole(w)
    ensures Wire.TakeAll(Concat([w.sent])).frames == []
  {
    hide Wire.IsFrame, Wire.TakeAll;
    ConcatSnoc([], w.sent);
    assert [] + [w.sent] == [w.sent] && Concat([w.sent]) == w.sent;
    assert w.sent == w.frame[..|w.sent|];
    Wire.CutFrames(w.frame, |w.sent|);
  }

  /** A broadcast the peer reads decodes to the message its event stands for. A chat comes back to its
      own sender like to anyone else, under the name the hub gave him, whatever name he wrote. */
  lemma BroadcastReads(log: seq<Write>, events: seq<Event>, i: nat)
    requires LogTrue(log, events) && i < |log| && log[i].source.Ring?
    ensures var pos := log[i].source.pos;
            && pos < |events| && ToWire(events[pos]).Some?
            && Wire.DecodeMessage(log[i].frame) == Ok(ToWire(events[pos]).value)
  {
    hide Wire.EncodeMessage, Wire.DecodeMessage;
    assert WriteTrue(log, i, events);
    Wire.MessageRoundTrip(ToWire(events[log[i].source.pos]).value);
  }

  // ---- nothing lost, doubled or out of order ----

  /** The writes from the queue, as a subsequence, are the frames queued, each once and in order; a
      broadcast overtakes none of those that were queued when it was taken. */
  lemma QueueFirst(b: Books, i: nat, n: nat)
    requires Balanced(b) && i < |b.log| && b.log[i].source.Ring?
    requires n < b.log[i].source.queued
    ensures n < |Queued(b.log[..i])| && n < |b.queuedEver| && Queued(b.log[..i])[n] == b.queuedEver[n]
  {
    hide FrameOf, FatesTrue;
    assert WriteTrue(b.log, i, b.events);
    QueuedGrows(b.log, i);
  }

  lemma {:induction false} QueuedGrows(log: seq<Write>, i: nat)
    requires i <= |log|
    ensures Queued(log[..i]) <= Queued(log)
  {
    if i < |log| {
      assert log[..|log| - 1][..i] == log[..i];
      QueuedGrows(log[..|log| - 1], i);
    } else {
      assert log[..i] == log;
    }
  }

  /** The broadcasts written come in the order of the channel, none twice. */
  lemma BroadcastsInOrder(b: Books, i: nat, j: nat)
    requires Balanced(b) && i < j < |Positions(b.log)|
    ensures b.start <= Positions(b.log)[i] < Positions(b.log)[j] < b.start + |b.fates|
  {
    hide LogTrue, FatesTrue;
    TriedInOrder(b.start, b.fates, i, j);
  }

  /** Of the broadcasts since the subscription exactly those are not written that are not for the wire,
      do not encode, or were overwritten while the writer was more than 256 behind. */
  lemma BroadcastsMissed(b: Books, i: nat)
    requires Balanced(b) && i < |b.fates|
    ensures b.start + i < |b.events|
    ensures b.start + i !in Positions(b.log) <==> b.fates[i] != Tried
    ensures b.fates[i] != Tried ==>
      || FrameOf(b.events[b.start + i]).None?
      || (b.fates[i].Overwritten? && b.start + i + CAPACITY < b.fates[i].tail <= |b.events|)
  {
    hide LogTrue, FrameOf;
    assert FateTrue(b.fates[i], b.start + i, b.events);
    TriedListed(b.start, b.fates, i);
  }

  lemma {:induction false} TriedInOrder(start: nat, fates: seq<Fate>, i: nat, j: nat)
    requires i < j < |TriedAt(start, fates)|
    ensures start <= TriedAt(start, fates)[i] < TriedAt(start, fates)[j] < start + |fates|
  {
    var n := |fates| - 1;
    TriedBelow(start, fates[..n]);
    if j < |TriedAt(start, fates[..n])| { TriedInOrder(start, fates[..n], i, j); }
  }

  lemma {:induction false} TriedBelow(start: nat, fates: seq<Fate>)
    ensures forall i :: 0 <= i < |TriedAt(start, fates)| ==> start <= TriedAt(start, fates)[i] < start + |fates|
  {
    if fates != [] { TriedBelow(start, fates[..|fates| - 1]); }
  }

  lemma {:induction false} TriedListed(start: nat, fates: seq<Fate>, i: nat)
    requires i < |fates|
    ensures fates[i] == Tried <==> start + i in TriedAt(start, fates)
  {
    var n := |fates| - 1;
    TriedBelow(start, fates[..n]);
    if i < n { TriedListed(start, fates[..n], i); }
  }

  // ---- in plain words ----

  /** What a peer reads of a broadcast: chats under the name and with the text they were broadcast with,
      comings and goings as system messages. */
  lemma BroadcastSpelled(log: seq<Write>, events: seq<Event>, i: nat)
    requires LogTrue(log, events) && i < |log| && log[i].source.Ring?
    ensures log[i].source.pos < |events|
    ensures match events[log[i].source.pos]
            case Message(_, name, text) => Wire.DecodeMessage(log[i].frame) == Ok(WireMessage(Chat, name, text))
            case PeerJoin(_, name) => Wire.DecodeMessage(log[i].frame) == Ok(WireMessage(System, "", name + " joined"))
            case PeerLeave(id) => Wire.DecodeMessage(log[i].frame) == Ok(WireMessage(System, "", id + " left"))
            case Other => false
  {
    BroadcastReads(log, events, i);
    hide Wire.DecodeMessage, LogTrue;
  }

  predicate AllDecode(frames: seq<Bytes>) { forall i :: 0 <= i < |frames| ==> Wire.DecodeMessage(frames[i]).Ok? }

  /** What one more frame adds to the relaying: a chat goes to the hub's owner and, under the hub's name for
      the peer, to everyone; a ping is answered with a pong; anything else goes to the owner alone. */
  lemma {:induction false} RelayedSnoc(id: string, name: string, frames: seq<Bytes>, f: Bytes)
    requires AllDecode(frames) && Wire.DecodeMessage(f).Ok?
    ensures var m, r, t := Wire.DecodeMessage(f).value, Relayed(id, name, frames), Relayed(id, name, frames + [f]);
      && t.broadcast == r.broadcast + (if m.kind == Chat then [Message(id, name, m.text)] else [])
      && t.forwarded == r.forwarded + (if m.kind == Ping then [] else [m])
      && (m.kind == Ping ==> Wire.EncodeMessage(WireMessage(Pong, "", "")).Ok?)
      && t.answers
         == r.answers + (if m.kind == Ping then [Wire.EncodeMessage(WireMessage(Pong, "", "")).value] else [])
  {
    hide Wire.DecodeMessage, Wire.EncodeMessage;
    PongEncodes();
    if frames == [] {
      assert [] + [f] == [f] && [f][1..] == [];
    } else {
      assert (frames + [f])[0] == frames[0] && (frames + [f])[1..] == frames[1..] + [f];
      RelayedSnoc(id, name, frames[1..], f);
    }
  }

  /** At a frame that does not decode the reader ends. */
  lemma {:induction false} RelayedStops(id: string, name: string, frames: seq<Bytes>, f: Bytes, more: seq<Bytes>)
    requires AllDecode(frames) && Wire.DecodeMessage(f).Err?
    ensures Relayed(id, name, frames + [f] + more) == Relayed(id, name, frames)
  {
    hide Wire.DecodeMessage, Wire.EncodeMessage;
    var all := frames + [f] + more;
    if frames == [] {
      assert all[0] == f;
    } else {
      assert all[0] == frames[0] && all[1..] == frames[1..] + [f] + more;
      RelayedStops(id, name, frames[1..], f, more);
    }
  }
}
