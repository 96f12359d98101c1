/** The numbers of the host room: how much its channels hold, which broadcast chats a peer can still get,
    from which chat on, and what may make its handler go on to the leave. */
module RoomLimits {
  import opened Basics
  import opened Json
  import opened Room
  import opened RoomNonces
  import RoomOrder
  import RoomBroadcast
  import RoomDrain
  import RoomFifo
  import RoomTexts
  import Wire

  // ---- channels ----

  predicate Bounded(s: State) { |s.queue| <= 256 && |s.msgs| <= 128 && |s.texts| <= 64 }

  lemma RoomToSend(s: State, a: Action)
    requires Valid(s) && Enabled(s, a)
    ensures a.PushText? ==> s.textsOpen && |s.texts| < 64
    ensures a.Pass? && s.main == Serving ==> |s.msgs| < 128
  {
    hide LocalEnabled;
  }

  lemma BoundedStep(s: State, a: Action)
    requires Valid(s) && Enabled(s, a) && |s.msgs| <= 128 && |s.texts| <= 64
    ensures |Apply(s, a).msgs| <= 128 && |Apply(s, a).texts| <= 64
  {
    RoomToSend(s, a);
    RoomOrder.MainMoves(s, a);
    RoomTexts.TextsMove(s, a);
    hide Apply, Enabled;
  }

  /** The event channel never holds more than 256 events, the channel from the readers 128 messages and the
      channel from the handles 64 texts. */
  lemma {:induction false} BoundsHold(host: string, run: seq<Action>)
    requires Exec(host, run).Some?
    ensures Bounded(Exec(host, run).value)
  {
    hide Apply, Enabled;
    RoomOrder.Channel(host, run);
    if run != [] {
      ExecLast(host, run);
      BoundsHold(host, run[..|run| - 1]);
      BoundedStep(Exec(host, run[..|run| - 1]).value, run[|run| - 1]);
    }
  }

  /** And they are no smaller: a text finds a place unless 64 wait or the channel is closed, and a reader
      that has a message passes it on at once unless 128 wait and the main loop still receives; the client
      gets an event whenever one waits and it listens. */
  lemma PlacesExactly(host: string, run: seq<Action>, c: nat, text: string)
    requires Exec(host, run).Some?
    ensures var s := Exec(host, run).value;
      && (Exec(host, run + [PushText(text)]).Some? <==> s.textsOpen && |s.texts| != 64)
      && (c < |s.conns| && s.conns[c].reader.Passing? ==>
            (Exec(host, run + [Pass(c)]).Some? <==> s.main != Serving || |s.msgs| != 128))
      && (Exec(host, run + [Consume]).Some? <==> s.listening && s.queue != [])
  {
    hide Shape, Apply, Valid;
    ShapesHold(host, run);
    BoundsHold(host, run);
    var s := Exec(host, run).value;
    assert (run + [PushText(text)])[..|run|] == run && (run + [Pass(c)])[..|run|] == run;
    assert (run + [Consume])[..|run|] == run;
    if c < |s.conns| && s.conns[c].reader.Passing? { PasserLong(s, c); }
  }

  lemma MayTake(host: string, run: seq<Action>, a: Action)
    requires Exec(host, run).Some?
    ensures Exec(host, run + [a]).Some? <==> Enabled(Exec(host, run).value, a)
  {
    hide Enabled, Apply;
    assert (run + [a])[..|run|] == run;
  }

  /** When the main loop's arms can run, in every reachable state: its launch ends, with or without success, and
      progress is reported, as long as 256 events do not wait for a listener; and what else may happen then. */
  lemma ArmsExactly(host: string, run: seq<Action>, ok: bool, percent: int)
    requires Exec(host, run).Some?
    ensures var s := Exec(host, run).value;
      && (Exec(host, run + [Launch(ok)]).Some? <==> s.main == Launching && (!s.listening || |s.queue| != 256))
      && (Exec(host, run + [Progress(percent)]).Some? <==> s.main == Launching && (!s.listening || |s.queue| != 256))
      && (Exec(host, run + [MainClose]).Some? <==> s.main in {Serving, Refused} && s.signalled)
      && (Exec(host, run + [MainText]).Some? <==> s.main in {Serving, Refused} && s.texts != [])
      && (Exec(host, run + [MainTextsClosed]).Some?
          <==> s.main in {Serving, Refused} && !s.textsOpen && s.texts == [])
      && (Exec(host, run + [MainMessage]).Some? <==> s.main == Serving && s.msgs != [])
  {
    hide Exec;
    BoundsHold(host, run);
    MayTake(host, run, Launch(ok));
    MayTake(host, run, Progress(percent));
    MayTake(host, run, MainClose);
    MayTake(host, run, MainText);
    MayTake(host, run, MainTextsClosed);
    MayTake(host, run, MainMessage);
  }

  /** And when the world can act: a peer is taken in exactly while the room accepts, the signal always. */
  lemma WorldExactly(host: string, run: seq<Action>)
    requires Exec(host, run).Some?
    ensures var s := Exec(host, run).value;
      && (Exec(host, run + [Admit]).Some? <==> s.accepting)
      && (Exec(host, run + [StopAccepting]).Some? <==> s.accepting)
      && (Exec(host, run + [CloseTexts]).Some? <==> s.textsOpen)
      && (Exec(host, run + [StopListening]).Some? <==> s.listening)
      && Exec(host, run + [Signal]).Some?
  {
    hide Exec;
    MayTake(host, run, Admit);
    MayTake(host, run, StopAccepting);
    MayTake(host, run, CloseTexts);
    MayTake(host, run, StopListening);
    MayTake(host, run, Signal);
  }

  lemma PasserLong(s: State, c: nat)
    requires Shapes(s) && c < |s.conns| && s.conns[c].reader.Passing?
    ensures |s.conns[c].input| >= HELLO
  {
    assert Shape(s.conns[c]);
  }

  // ---- the handler goes on ----

  ghost predicate CalledOff(s: State) {
    forall c :: 0 <= c < |s.conns| && Stage(s.conns[c].phase) >= 10 ==>
      s.conns[c].reader == ReaderDone || s.signalled
  }

  lemma LocalCalledOff(k: Conn, l: Local, chats: seq<WireMessage>, signalled: bool)
    requires k.taken <= |k.input| && LocalEnabled(k, l, chats, signalled)
    requires Stage(k.phase) >= 10 ==> k.reader == ReaderDone || signalled
    requires k.phase == Starting ==> k.reader == NoReader
    ensures Stage(LocalStep(k, l, chats).phase) >= 10 ==> LocalStep(k, l, chats).reader == ReaderDone || signalled
  {
    hide Wire.TakeFrame;
    StepFields(k, l, chats);
    hide ReadNameStep, FetchStep, NextChatStep, WriteChatStep, TakeStep, NoticeStep;
  }

  lemma ConnCalledOff(s: State, a: Action, c: nat)
    requires Valid(s) && Enabled(s, a) && Shapes(s) && CalledOff(s) && Target(a) == Some(c)
    ensures Stage(ConnAfter(s, a, s.conns[c]).phase) >= 10 ==>
              ConnAfter(s, a, s.conns[c]).reader == ReaderDone || s.signalled
  {
    hide LocalStep, LocalEnabled, NoticeBytes, Nonce, Locked;
    assert Shape(s.conns[c]);
    if a.Do? { LocalCalledOff(s.conns[c], a.step, s.chats, s.signalled); }
  }

  lemma CalledOffStep(s: State, a: Action)
    requires Valid(s) && Enabled(s, a) && Shapes(s) && CalledOff(s)
    ensures CalledOff(Apply(s, a))
  {
    if Target(a).Some? { ConnCalledOff(s, a, Target(a).value); }
    if s.signalled { RoomDrain.SignalStays(s, a); }
    hide ConnAfter, SharedAfter, LocalEnabled, Shape, Locked;
    assert Stage(FRESH_CONN.phase) == 0;
  }

  /** Nobody is taken out of the map, let alone announced as gone, before its reader has ended or shutdown
      was signalled. */
  lemma {:induction false} LeavesForCause(host: string, run: seq<Action>)
    requires Exec(host, run).Some?
    ensures CalledOff(Exec(host, run).value)
  {
    hide Shape, Apply, Enabled;
    if run != [] {
      ExecLast(host, run);
      LeavesForCause(host, run[..|run| - 1]);
      ShapesHold(host, run[..|run| - 1]);
      CalledOffStep(Exec(host, run[..|run| - 1]).value, run[|run| - 1]);
    }
  }

  /** What the steps taken by one connection say about it: its way through the phases past the handshake,
      what ends its reader and its writer, and whether its stream is broken. */
  ghost predicate StepsTell(run: seq<Action>, c: nat, k: Conn) {
    && (Stage(k.phase) >= 3 ==> Do(c, Acknowledge(true, true)) in run)
    && (forall written :: Do(c, Acknowledge(written, false)) in run ==> k.phase == Failed)
    && (Do(c, GiveUp) in run || Do(c, Reject) in run ==> k.phase == Failed)
    && (Do(c, StartReader) in run <==> Stage(k.phase) >= 8)
    && (Do(c, Subscribe) in run <==> Stage(k.phase) >= 9)
    && (Do(c, Wake) in run <==> Stage(k.phase) >= 10)
    && (Do(c, ReaderEnds) in run ==> k.reader == ReaderDone)
    && (Do(c, WriterEnds) in run ==> k.writer == WriterDone)
    && (k.broken <==> Do(c, Break) in run)
  }

  /** One step as `StepsTell` sees it. */
  ghost predicate StepTells(k: Conn, k': Conn, own: bool, l: Local) {
    && (Stage(k'.phase) >= 3 ==> Stage(k.phase) >= 3 || (own && l == Acknowledge(true, true)))
    && (k.phase == Failed ==> k'.phase == Failed)
    && (own && (l.GiveUp? || l.Reject? || (l.Acknowledge? && !l.flushed)) ==> k'.phase == Failed)
    && (Stage(k'.phase) >= 8 <==> Stage(k.phase) >= 8 || (own && l.StartReader?))
    && (Stage(k'.phase) >= 9 <==> Stage(k.phase) >= 9 || (own && l.Subscribe?))
    && (Stage(k'.phase) >= 10 <==> Stage(k.phase) >= 10 || (own && l.Wake?))
    && (k.reader == ReaderDone || (own && l.ReaderEnds?) ==> k'.reader == ReaderDone)
    && (k.writer == WriterDone || (own && l.WriterEnds?) ==> k'.writer == WriterDone)
    && (k'.broken <==> k.broken || (own && l.Break?))
  }

  lemma LocalTells(k: Conn, l: Local, chats: seq<WireMessage>)
    requires Shape(k) && k.taken <= |k.input| && LocalEnabled(k, l, chats, true)
    ensures StepTells(k, LocalStep(k, l, chats), true, l)
  {
    hide LocalStep, LocalEnabled, Shape, Moves;
    LocalMoves(k, l, chats, true);
    PhasesTell(l, k.phase, LocalStep(k, l, chats).phase);
    EndsTell(k, l, chats);
  }

  lemma PhasesTell(l: Local, from: Phase, to: Phase)
    requires Moves(l, from, to)
    ensures Stage(to) >= 3 ==> Stage(from) >= 3 || l.Acknowledge?
    ensures from == Failed ==> to == Failed
    ensures l.GiveUp? || l.Reject? ==> to == Failed
    ensures Stage(to) >= 8 <==> Stage(from) >= 8 || l.StartReader?
    ensures Stage(to) >= 9 <==> Stage(from) >= 9 || l.Subscribe?
    ensures Stage(to) >= 10 <==> Stage(from) >= 10 || l.Wake?
  {
  }

  lemma EndsTell(k: Conn, l: Local, chats: seq<WireMessage>)
    requires Shape(k) && LocalEnabled(k, l, chats, true)
    ensures var k' := LocalStep(k, l, chats);
      && (k.reader == ReaderDone || l.ReaderEnds? ==> k'.reader == ReaderDone)
      && (k.writer == WriterDone || l.WriterEnds? ==> k'.writer == WriterDone)
      && (k'.broken <==> k.broken || l.Break?)
      && (l.Acknowledge? ==> k'.phase == (if l.flushed then AwaitName else Failed) && (l.flushed ==> l.written))
  {
    hide Wire.TakeFrame;
    StepFields(k, l, chats);
    hide ReadNameStep, FetchStep, NextChatStep, WriteChatStep, TakeStep, NoticeStep;
  }

  lemma ConnTells(s: State, a: Action, c: nat, l: Local)
    requires Valid(s) && Enabled(s, a) && Shapes(s) && Target(a) == Some(c) && (a.Do? ==> l == a.step)
    ensures StepTells(s.conns[c], ConnAfter(s, a, s.conns[c]), a.Do?, l)
  {
    hide LocalStep, NoticeBytes, Nonce, Locked, StepTells, Unread, Waiting;
    assert Shape(s.conns[c]);
    if a.Do? { LocalTells(s.conns[c], a.step, s.chats); } else { SharedTells(s, a, c, l); }
  }

  lemma SharedTells(s: State, a: Action, c: nat, l: Local)
    requires Valid(s) && Enabled(s, a) && Shapes(s) && Target(a) == Some(c) && !a.Do?
    ensures StepTells(s.conns[c], ConnAfter(s, a, s.conns[c]), false, l)
  {
    hide ConnAfter, Enabled, Shape;
    SharedMoves(s, a, c);
  }

  /** What a step on shared state leaves alone. */
  lemma SharedMoves(s: State, a: Action, c: nat)
    requires Valid(s) && Enabled(s, a) && Target(a) == Some(c) && !a.Do?
    ensures var k, k' := s.conns[c], ConnAfter(s, a, s.conns[c]);
      && k'.broken == k.broken && k'.writer == k.writer && (k.reader == ReaderDone ==> k'.reader == ReaderDone)
      && (k.phase == Failed ==> k'.phase == Failed)
    ensures var n, n' := Stage(s.conns[c].phase), Stage(ConnAfter(s, a, s.conns[c]).phase);
      n' == n || (n < 3 && n' < 3) || (3 < n < 7 && 3 < n' < 7) || (n >= 10 && n' >= 10)
  {
    hide LocalStep, LocalEnabled, NoticeBytes, Nonce, Locked, Id;
  }

  lemma StillTell(run: seq<Action>, a: Action, c: nat, k: Conn, k': Conn)
    requires StepsTell(run, c, k)
    requires if Target(a) == Some(c) then StepTells(k, k', a.Do?, if a.Do? then a.step else Break) else k' == k
    ensures StepsTell(run + [a], c, k')
  {
    assert forall l :: Do(c, l) in run + [a] <==> Do(c, l) in run || Do(c, l) == a;
  }

  ghost predicate AllTell(run: seq<Action>, s: State) {
    && (forall c :: 0 <= c < |s.conns| ==> StepsTell(run, c, s.conns[c]))
    && (forall c: nat, l :: Do(c, l) in run ==> c < |s.conns|)
  }

  lemma TellStep(run: seq<Action>, s: State, a: Action)
    requires Valid(s) && Enabled(s, a) && Shapes(s) && AllTell(run, s)
    ensures AllTell(run + [a], Apply(s, a))
  {
    hide Apply, ConnAfter, LocalEnabled, StepsTell, StepTells, Shape;
    var t := Apply(s, a);
    CountGrows(s, a);
    assert forall x :: x in run + [a] <==> x in run || x == a;
    forall c | 0 <= c < |t.conns| ensures StepsTell(run + [a], c, t.conns[c]) {
      if c < |s.conns| {
        RoomFifo.ConnOf(s, a, c);
        if Target(a) == Some(c) { ConnTells(s, a, c, if a.Do? then a.step else Break); }
        StillTell(run, a, c, s.conns[c], t.conns[c]);
      } else {
        FreshTells(run + [a], c);
      }
    }
  }

  lemma CountGrows(s: State, a: Action)
    requires Valid(s) && Enabled(s, a)
    ensures var t := Apply(s, a);
      && |s.conns| <= |t.conns| && (forall c :: |s.conns| <= c < |t.conns| ==> t.conns[c] == FRESH_CONN)
      && (a.Do? ==> a.c < |s.conns|) && (|t.conns| > |s.conns| ==> a == Admit)
  {
    hide ConnAfter, SharedAfter, LocalEnabled, Locked;
  }

  lemma FreshTells(run: seq<Action>, c: nat)
    requires forall l :: Do(c, l) !in run
    ensures StepsTell(run, c, FRESH_CONN)
  {
  }

  /** Over whole runs: a peer gets past its accept byte only if that was written and flushed, and else fails;
      its reader starts, its writer subscribes and its handler goes on to the leave by their own steps and
      no others; an ended reader or writer stays ended; and its stream is broken exactly since it broke. */
  lemma {:induction false} PhasesByStep(host: string, run: seq<Action>)
    requires Exec(host, run).Some?
    ensures AllTell(run, Exec(host, run).value)
  {
    hide Shape, Apply, Enabled, StepsTell;
    if run != [] {
      var m := run[..|run| - 1];
      ExecLast(host, run);
      PhasesByStep(host, m);
      ShapesHold(host, m);
      assert m + [run[|run| - 1]] == run;
      TellStep(m, Exec(host, m).value, run[|run| - 1]);
    }
  }

  lemma {:induction false} RankAtMost(conns: seq<Conn>)
    ensures RoomDrain.Rank(conns) <= 12 * |conns|
  {
    if conns != [] { RankAtMost(conns[..|conns| - 1]); }
  }

  /** After shutdown and the end of accepting, the handlers of `n` connections take at most `12 * n` further
      steps in all, whatever else happens. */
  lemma TwelveEach(host: string, run: seq<Action>, more: seq<Action>)
    requires Exec(host, run).Some? && Exec(host, run + more).Some?
    requires !Exec(host, run).value.accepting && Exec(host, run).value.main != Launching
    ensures RoomDrain.HandlerSteps(more) <= 12 * |Exec(host, run).value.conns|
  {
    hide Exec, RoomDrain.Rank, RoomDrain.HandlerSteps;
    RoomDrain.DrainBound(host, run, more);
    RankAtMost(Exec(host, run).value.conns);
  }

  // ---- what a subscription covers ----

  lemma LocalStart(k: Conn, l: Local, chats: seq<WireMessage>, signalled: bool)
    requires k.taken <= |k.input| && LocalEnabled(k, l, chats, signalled) && Stage(k.phase) >= 9
    ensures Stage(LocalStep(k, l, chats).phase) >= 9 && LocalStep(k, l, chats).start == k.start
  {
    hide Wire.TakeFrame;
    StepFields(k, l, chats);
    hide ReadNameStep, FetchStep, NextChatStep, WriteChatStep, TakeStep, NoticeStep;
  }

  lemma StartStays(s: State, a: Action, c: nat)
    requires Valid(s) && Enabled(s, a) && c < |s.conns| && Stage(s.conns[c].phase) >= 9
    ensures c < |Apply(s, a).conns|
    ensures Stage(Apply(s, a).conns[c].phase) >= 9 && Apply(s, a).conns[c].start == s.conns[c].start
  {
    hide Apply, ConnAfter, Enabled;
    RoomFifo.ConnOf(s, a, c);
    if Target(a) == Some(c) { ConnStart(s, a, c); }
  }

  lemma ConnStart(s: State, a: Action, c: nat)
    requires Valid(s) && Enabled(s, a) && Target(a) == Some(c) && c < |s.conns| && Stage(s.conns[c].phase) >= 9
    ensures var k' := ConnAfter(s, a, s.conns[c]); Stage(k'.phase) >= 9 && k'.start == s.conns[c].start
  {
    hide LocalStep, LocalEnabled, Locked, NoticeBytes, Nonce;
    if a.Do? { LocalStart(s.conns[c], a.step, s.chats, s.signalled); }
  }

  lemma Subscribes(s: State, c: nat)
    requires Valid(s) && Enabled(s, Do(c, Subscribe))
    ensures c < |Apply(s, Do(c, Subscribe)).conns|
    ensures var k := Apply(s, Do(c, Subscribe)).conns[c]; Stage(k.phase) >= 9 && k.start == |s.chats|
  {
    hide Wire.TakeFrame;
  }

  /** A peer's chats are those broadcast after its subscription: its stretch starts, for good, where the
      host's chats ended when it subscribed. */
  lemma {:induction false} SinceSubscription(host: string, before: seq<Action>, c: nat, after: seq<Action>)
    requires Exec(host, before).Some? && Exec(host, before + [Do(c, Subscribe)] + after).Some?
    ensures var s := Exec(host, before + [Do(c, Subscribe)] + after).value;
      && c < |s.conns| && Stage(s.conns[c].phase) >= 9
      && s.conns[c].start == |Exec(host, before).value.chats|
  {
    hide Apply, Enabled;
    var run := before + [Do(c, Subscribe)] + after;
    ExecLast(host, run);
    if after == [] {
      assert run[..|run| - 1] == before;
      Subscribes(Exec(host, before).value, c);
    } else {
      var m := after[..|after| - 1];
      assert run[..|run| - 1] == before + [Do(c, Subscribe)] + m;
      SinceSubscription(host, before, c, m);
      StartStays(Exec(host, before + [Do(c, Subscribe)] + m).value, run[|run| - 1], c);
    }
  }

  /** A writer at most 256 chats behind takes the next one for writing, or passes over it if it does not
      encode; one further behind loses just enough to be 256 behind. */
  lemma NextExactly(k: Conn, chats: seq<WireMessage>)
    requires k.taken <= |k.input| && k.writer == Idle && k.start + |k.fates| < |chats|
    ensures LocalEnabled(k, NextChat, chats, false)
    ensures var pos, k' := k.start + |k.fates|, LocalStep(k, NextChat, chats);
      && (|chats| <= pos + 256 ==>
            match Wire.EncodeMessage(chats[pos])
            case Ok(f) => k' == k.(writer := Sending(f))
            case Err(_) => k' == k.(fates := k.fates + [TooLarge]))
      && (|chats| > pos + 256 ==>
            && k' == k.(fates := k'.fates) && k.fates <= k'.fates && |chats| == k.start + |k'.fates| + 256
            && forall i :: |k.fates| <= i < |k'.fates| ==> k'.fates[i] == Overwritten(|chats|))
  {
    hide Wire.EncodeMessage, Wire.TakeFrame;
  }

  /** A chat taken for writing is whole on the stream when all of it was written and nothing was torn off
      before, and then it counts as written. */
  lemma WritesExactly(k: Conn, count: nat, stop: bool, chats: seq<WireMessage>)
    requires k.taken <= |k.input| && LocalEnabled(k, WriteChat(count, stop), chats, false)
    ensures var f, k' := k.writer.frame, LocalStep(k, WriteChat(count, stop), chats);
      && k'.output == k.output + f[..count] && |k'.fates| == |k.fates| + 1 && k.fates <= k'.fates
      && (k'.fates[|k.fates|] == Written <==> count == |f| && k.scrap.None?)
      && (k'.writer == WriterDone <==> stop) && (k'.writer == Idle <==> !stop)
  {
    hide Wire.TakeFrame;
  }

  /** The notice a peer gets, spelled out. */
  lemma NoticeSpelled(host: string, run: seq<Action>, c: nat)
    requires Exec(host, run).Some? && c < |Exec(host, run).value.conns|
    requires Exec(host, run).value.conns[c].notice != []
    ensures var k := Exec(host, run).value.conns[c];
      && |k.notice| == 1
      && Wire.DecodeMessage(k.notice[0]) == Ok(WireMessage(System, "", k.name + " joined"))
  {
    RoomBroadcast.BroadcastHolds(host, run);
    var s := Exec(host, run).value;
    hide Exec;
    assert RoomBroadcast.Broadcasts(s.conns[c], s.chats);
    NoticeDecodes(s.conns[c], s.chats);
  }

  lemma NoticeDecodes(k: Conn, chats: seq<WireMessage>)
    requires RoomBroadcast.OutputFits(k, chats) && k.notice != []
    ensures |k.notice| == 1
    ensures Wire.DecodeMessage(k.notice[0]) == Ok(WireMessage(System, "", k.name + " joined"))
  {
    hide Wire.EncodeMessage, Wire.DecodeMessage, Wire.TakeAll;
    Wire.MessageRoundTrip(WireMessage(System, "", k.name + " joined"));
  }
}
