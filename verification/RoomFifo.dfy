/** From the bytes a peer sends to the chats the host reports: order is kept and nothing is invented,
    in every interleaving of reader, channel and main loop. */
module RoomFifo {
  import opened Basics
  import opened Json
  import opened Room
  import opened RoomNonces
  import opened RoomOrder
  import Wire
  import Codecs
  import Stream

  // ---- one connection's bytes ----

  predicate Decodes(f: Bytes) { Wire.IsFrame(f) && Wire.DecodeMessage(f).Ok? }

  predicate AllDecode(fs: seq<Bytes>) { forall i :: 0 <= i < |fs| ==> Decodes(fs[i]) }

  /** The handler has read the 32 bytes and the name frame, the reader exactly the frames after it. */
  ghost predicate Piped(k: Conn) {
    && k.taken <= |k.input|
    && (1 <= Stage(k.phase) <= 3 ==> k.taken == HELLO)
    && (Stage(k.phase) < 8 ==> k.frames == [])
    && (Stage(k.phase) >= 4 ==> (
      && HELLO <= k.base <= k.taken
      && Decodes(k.input[HELLO..k.base]) && Wire.DecodeMessage(k.input[HELLO..k.base]).value.text == k.name
      && AllDecode(k.frames) && k.input[k.base..k.taken] == Concat(k.frames)))
  }

  /** The frame a read yields, and where it lies in the input. */
  lemma UnreadFrame(k: Conn)
    requires k.taken <= |k.input| && Unread(k).result.Ok?
    ensures var f := Unread(k).result.value;
            Wire.IsFrame(f) && k.taken + |f| <= |k.input| && k.input[k.taken..k.taken + |f|] == f
  {
    TakenFits(k);
    Wire.TakenIsFrame(k.input[k.taken..]);
  }

  lemma NameReadPipes(k: Conn)
    requires Piped(k) && k.phase == AwaitName
    ensures Piped(ReadNameStep(k))
  {
    hide Wire.TakeFrame, Wire.IsFrame, Wire.DecodeMessage;
    if Unread(k).result.Ok? {
      UnreadFrame(k);
      var f, k' := Unread(k).result.value, ReadNameStep(k);
      assert k.input[HELLO..HELLO + |f|] == f;
      assert k'.phase == Registering ==> k'.input[k'.base..k'.taken] == [];
    }
  }

  lemma FetchPipes(k: Conn)
    requires Piped(k) && Stage(k.phase) >= 8
    ensures Piped(FetchStep(k))
  {
    hide Wire.TakeFrame, Wire.IsFrame, Wire.DecodeMessage, Concat;
    FetchFields(k);
    if Unread(k).result.Ok? && Wire.DecodeMessage(Unread(k).result.value).Ok? {
      UnreadFrame(k);
      OneFramePiped(k, Unread(k).result.value);
    }
  }

  lemma OneFramePiped(k: Conn, f: Bytes)
    requires Piped(k) && Stage(k.phase) >= 8 && Decodes(f)
    requires k.taken + |f| <= |k.input| && k.input[k.taken..k.taken + |f|] == f
    ensures AllDecode(k.frames + [f]) && k.input[k.base..k.taken + |f|] == Concat(k.frames + [f])
  {
    hide Decodes, Concat;
    ConcatSnoc(k.frames, f);
    var n := k.taken + |f|;
    assert k.input[k.base..n] == k.input[k.base..k.taken] + k.input[k.taken..n];
  }

  lemma MorePipes(k: Conn, bytes: Bytes)
    requires Piped(k)
    ensures Piped(k.(input := k.input + bytes))
  {
    hide Decodes, AllDecode;
    var k' := k.(input := k.input + bytes);
    if Stage(k.phase) >= 4 {
      assert k'.input[HELLO..k.base] == k.input[HELLO..k.base];
      assert k'.input[k.base..k.taken] == k.input[k.base..k.taken];
    }
  }

  lemma OtherPipes(k: Conn, l: Local, chats: seq<WireMessage>)
    requires Piped(k) && Shape(k) && LocalEnabled(k, l, chats, true) && !l.Fetch? && !l.ReadName? && !l.Receive?
    ensures Piped(LocalStep(k, l, chats))
  {
    hide Decodes, AllDecode, LocalStep, LocalEnabled, Concat;
    LocalMoves(k, l, chats, true);
    InputSide(k, l, chats);
  }

  /** Only receiving and reading change what has come in and how far it has been read. */
  lemma InputSide(k: Conn, l: Local, chats: seq<WireMessage>)
    requires k.taken <= |k.input| && LocalEnabled(k, l, chats, true) && !l.Fetch? && !l.ReadName? && !l.Receive?
    ensures var k' := LocalStep(k, l, chats);
      && k'.input == k.input && k'.frames == k.frames && k'.base == k.base
      && k'.taken == (if l.ReadHello? then HELLO else k.taken) && (l.ReadHello? ==> |k.input| >= HELLO)
  {
    hide Wire.TakeFrame;
    StepFields(k, l, chats);
    hide ReadNameStep, FetchStep, NextChatStep, WriteChatStep, TakeStep, NoticeStep;
  }

  lemma LocalPipes(k: Conn, l: Local, chats: seq<WireMessage>, signalled: bool)
    requires Shape(k) && Piped(k) && LocalEnabled(k, l, chats, signalled)
    ensures Piped(LocalStep(k, l, chats))
  {
    SignalledEnough(k, l, chats, signalled);
    ReadingStage(k, l, chats);
    hide Piped, Shape, Wire.TakeFrame, FetchStep, ReadNameStep;
    match l
    case Fetch => FetchPipes(k);
    case ReadName => NameReadPipes(k);
    case Receive(bytes) => MorePipes(k, bytes);
    case _ => OtherPipes(k, l, chats);
  }

  lemma ReadingStage(k: Conn, l: Local, chats: seq<WireMessage>)
    requires Shape(k) && LocalEnabled(k, l, chats, true)
    ensures l.Fetch? ==> Stage(k.phase) >= 8
    ensures l.ReadName? ==> k.phase == AwaitName
  {
    hide Wire.TakeFrame;
  }

  lemma ConnPipes(s: State, a: Action, c: nat)
    requires Valid(s) && Enabled(s, a) && Target(a) == Some(c) && Shape(s.conns[c]) && Piped(s.conns[c])
    ensures Piped(ConnAfter(s, a, s.conns[c]))
  {
    hide Decodes, AllDecode, LocalStep, LocalEnabled, Locked, NoticeBytes, Concat;
    if a.Do? { LocalPipes(s.conns[c], a.step, s.chats, s.signalled); }
  }

  ghost predicate AllPiped(s: State) { forall c :: 0 <= c < |s.conns| ==> Piped(s.conns[c]) }

  lemma {:induction false} PipedHolds(host: string, run: seq<Action>)
    requires Exec(host, run).Some?
    ensures AllPiped(Exec(host, run).value)
  {
    hide Shape, Enabled, Piped, ConnAfter, SharedAfter;
    if run != [] {
      ExecLast(host, run);
      var s, a := Exec(host, run[..|run| - 1]).value, run[|run| - 1];
      ShapesHold(host, run[..|run| - 1]);
      PipedHolds(host, run[..|run| - 1]);
      if Target(a).Some? { TargetExists(s, a); ConnPipes(s, a, Target(a).value); }
      FreshPiped();
    }
  }

  lemma TargetExists(s: State, a: Action)
    requires Valid(s) && Enabled(s, a) && Target(a).Some?
    ensures Target(a).value < |s.conns|
  {
  }

  lemma FreshPiped()
    ensures Piped(FRESH_CONN)
  {
  }

  // ---- from frames to messages ----

  /** The messages a reader passes on: every frame but the pings. */
  function Relay(frames: seq<Bytes>): (ms: seq<WireMessage>) {
    if frames == [] then []
    else
      var n := |frames| - 1;
      match Wire.DecodeMessage(frames[n])
      case Err(_) => Relay(frames[..n])
      case Ok(m) => Relay(frames[..n]) + (if m.kind == Ping then [] else [m])
  }

  /** The messages among the items that came from connection `c`. */
  function Of(c: nat, items: seq<Item>): seq<WireMessage> {
    if items == [] then []
    else
      var n := |items| - 1;
      Of(c, items[..n]) + (if items[n].conn == c then [items[n].msg] else [])
  }

  function Chats(ms: seq<WireMessage>): seq<(string, string)> {
    if ms == [] then []
    else
      var n := |ms| - 1;
      Chats(ms[..n]) + (if ms[n].kind == Chat then [(ms[n].name, ms[n].text)] else [])
  }

  /** The chats of connection `c` that the host tried to report, in order. */
  function Spoken(c: nat, log: seq<Attempt>): seq<(string, string)> {
    if log == [] then []
    else
      var e := Last(log).event;
      Spoken(c, Front(log)) + (if MessageOf(Last(log), c) then [(e.name, e.text)] else [])
  }

  lemma OfSnoc(c: nat, items: seq<Item>, i: Item)
    ensures Of(c, items + [i]) == Of(c, items) + (if i.conn == c then [i.msg] else [])
  {
    assert (items + [i])[..|items|] == items;
  }

  lemma {:induction false} OfCons(c: nat, i: Item, items: seq<Item>)
    ensures Of(c, [i] + items) == (if i.conn == c then [i.msg] else []) + Of(c, items)
  {
    if items == [] {
      assert [i] + items == [] + [i];
      OfSnoc(c, [], i);
    } else {
      var n := |items| - 1;
      assert [i] + items == ([i] + items[..n]) + [items[n]];
      assert items == items[..n] + [items[n]];
      OfSnoc(c, [i] + items[..n], items[n]);
      OfCons(c, i, items[..n]);
    }
  }

  lemma {:induction false} OfNone(c: nat, items: seq<Item>)
    requires forall i :: 0 <= i < |items| ==> items[i].conn != c
    ensures Of(c, items) == []
  {
    if items != [] { OfNone(c, items[..|items| - 1]); }
  }

  lemma ChatsSnoc(ms: seq<WireMessage>, m: WireMessage)
    ensures Chats(ms + [m]) == Chats(ms) + (if m.kind == Chat then [(m.name, m.text)] else [])
  {
    assert (ms + [m])[..|ms|] == ms;
  }

  lemma {:induction false} ChatsAppend(ms: seq<WireMessage>, more: seq<WireMessage>)
    ensures Chats(ms + more) == Chats(ms) + Chats(more)
  {
    if more == [] {
      assert ms + more == ms;
    } else {
      var n := |more| - 1;
      assert ms + more == (ms + more[..n]) + [more[n]];
      assert more == more[..n] + [more[n]];
      ChatsSnoc(ms + more[..n], more[n]);
      ChatsSnoc(more[..n], more[n]);
      ChatsAppend(ms, more[..n]);
    }
  }

  lemma SpokenSnoc(c: nat, log: seq<Attempt>, a: Attempt)
    ensures Spoken(c, log + [a]) == Spoken(c, log) + (if MessageOf(a, c) then [(a.event.name, a.event.text)] else [])
  {
    assert Front(log + [a]) == log;
  }

  // ---- the channel from the readers ----

  function InHand(k: Conn): seq<WireMessage> { if k.reader.Passing? then [k.reader.msg] else [] }

  /** Of what the reader of `k` relayed, `passed` went into the channel. */
  ghost predicate Relayed(k: Conn, passed: seq<WireMessage>, serving: bool) {
    && passed <= Relay(k.frames)
    && (serving && k.reader != ReaderDone ==> Relay(k.frames) == passed + InHand(k))
  }

  ghost predicate Flowing(s: State) {
    && (forall i :: 0 <= i < |s.handled| ==> s.handled[i].conn < |s.conns|)
    && (forall i :: 0 <= i < |s.msgs| ==> s.msgs[i].conn < |s.conns|)
    && (forall c :: 0 <= c < |s.conns| ==>
         Relayed(s.conns[c], Of(c, s.handled) + Of(c, s.msgs), s.main == Serving))
    && (forall c: nat :: Spoken(c, s.attempts) == Chats(Of(c, s.handled)))
  }

  lemma FetchRelays(k: Conn)
    requires k.taken <= |k.input| && k.reader == Reading
    ensures Relay(k.frames) <= Relay(FetchStep(k).frames)
    ensures FetchStep(k).reader != ReaderDone ==> Relay(FetchStep(k).frames) == Relay(k.frames) + InHand(FetchStep(k))
  {
    hide Wire.TakeFrame, Wire.DecodeMessage;
    if Unread(k).result.Ok? {
      var f := Unread(k).result.value;
      assert (k.frames + [f])[..|k.frames|] == k.frames;
    }
  }

  /** A step inside a connection keeps what it has passed on within what it relayed. */
  lemma LocalRelays(k: Conn, l: Local, chats: seq<WireMessage>, passed: seq<WireMessage>, serving: bool)
    requires LocalValidPre(k, l, chats) && Shape(k) && Piped(k) && Relayed(k, passed, serving)
    ensures Relayed(LocalStep(k, l, chats), passed, serving)
  {
    hide LocalStep, LocalEnabled, Shape, Piped, Relayed, FetchStep;
    if l.Fetch? {
      Fetching(k, chats);
      FetchRelayed(k, passed, serving);
    } else {
      StartsEmpty(k);
      ReaderSide(k, l, chats);
      OthersRelayed(k, LocalStep(k, l, chats), passed, serving);
    }
  }

  lemma Fetching(k: Conn, chats: seq<WireMessage>)
    requires LocalValidPre(k, Fetch, chats)
    ensures k.taken <= |k.input| && k.reader == Reading && LocalStep(k, Fetch, chats) == FetchStep(k)
  {
    hide FetchStep, Wire.TakeFrame;
  }

  lemma FetchRelayed(k: Conn, passed: seq<WireMessage>, serving: bool)
    requires k.taken <= |k.input| && k.reader == Reading && Relayed(k, passed, serving)
    ensures Relayed(FetchStep(k), passed, serving)
  {
    FetchRelays(k);
    hide FetchStep, Relay;
    assert passed + [] == passed;
  }

  lemma OthersRelayed(k: Conn, k': Conn, passed: seq<WireMessage>, serving: bool)
    requires Relayed(k, passed, serving) && k'.frames == k.frames
    requires k'.reader == k.reader || k'.reader == ReaderDone || (k.reader == NoReader && k'.reader == Reading)
    ensures Relayed(k', passed, serving)
  {
    hide Relay;
  }

  /** Steps other than fetching leave the frames and only start or end the reader. */
  lemma ReaderSide(k: Conn, l: Local, chats: seq<WireMessage>)
    requires LocalValidPre(k, l, chats) && !l.Fetch?
    ensures var k' := LocalStep(k, l, chats);
      && k'.frames == k.frames
      && (k'.reader == k.reader || k'.reader == ReaderDone || (k.phase == Starting && k'.reader == Reading))
  {
    hide Wire.TakeFrame;
    StepFields(k, l, chats);
    hide ReadNameStep, FetchStep, NextChatStep, WriteChatStep, TakeStep, NoticeStep;
  }

  /** Before the reader starts nothing has been read. */
  lemma StartsEmpty(k: Conn)
    requires Shape(k) && Piped(k)
    ensures k.phase == Starting ==> k.frames == [] && k.reader == NoReader
  {
    hide Decodes, AllDecode, Concat, Wire.DecodeMessage;
  }

  predicate LocalValidPre(k: Conn, l: Local, chats: seq<WireMessage>) {
    k.taken <= |k.input| && LocalEnabled(k, l, chats, true)
  }

  lemma PassedMoves(s: State, a: Action, c: nat)
    requires Valid(s) && Enabled(s, a) && Flowing(s)
    ensures !a.Pass? ==>
      Of(c, Apply(s, a).handled) + Of(c, Apply(s, a).msgs) == Of(c, s.handled) + Of(c, s.msgs)
    ensures a.Pass? ==>
      Of(c, Apply(s, a).handled) + Of(c, Apply(s, a).msgs)
      == Of(c, s.handled) + Of(c, s.msgs)
       + (if s.main == Serving && a.c == c then [s.conns[c].reader.msg] else [])
  {
    hide ConnsAfter, SharedAfter, LocalEnabled, Id, Of;
    MainMoves(s, a);
    if a.Pass? {
      if s.main == Serving { OfSnoc(c, s.msgs, Item(a.c, Id(s.conns[a.c]), s.conns[a.c].reader.msg)); }
    } else if a.MainMessage? {
      var i := s.msgs[0];
      assert s.msgs == [i] + s.msgs[1..];
      OfCons(c, i, s.msgs[1..]);
      OfSnoc(c, s.handled, i);
    }
  }

  lemma SpokenMoves(s: State, a: Action, c: nat)
    requires Valid(s) && Enabled(s, a) && Spoken(c, s.attempts) == Chats(Of(c, s.handled))
    ensures Spoken(c, Apply(s, a).attempts) == Chats(Of(c, Apply(s, a).handled))
  {
    hide ConnsAfter, SharedAfter, LocalEnabled, Id, Info, Of, Chats, Spoken;
    MainMoves(s, a);
    LogGrows(s, a);
    if Sent(s, a).Some? { SpokenSnoc(c, s.attempts, Logged(s, a)); }
    if a.MainMessage? {
      OfSnoc(c, s.handled, s.msgs[0]);
      ChatsSnoc(Of(c, s.handled), s.msgs[0].msg);
      assert Of(c, s.handled) + [] == Of(c, s.handled);
      assert Chats(Of(c, s.handled)) + [] == Chats(Of(c, s.handled));
    }
  }

  lemma PassRelays(k: Conn, passed: seq<WireMessage>, serving: bool)
    requires k.reader.Passing? && Relayed(k, passed, serving)
    ensures Relayed(k.(reader := Reading), passed + (if serving then [k.reader.msg] else []), serving)
  {
    assert passed + [] == passed;
  }

  /** Only a step inside it or its own passing changes a reader and its frames. */
  lemma OthersRelay(s: State, a: Action, c: nat)
    requires Valid(s) && Enabled(s, a) && Target(a) == Some(c) && !a.Do? && !a.Pass?
    ensures ConnAfter(s, a, s.conns[c]).reader == s.conns[c].reader
    ensures ConnAfter(s, a, s.conns[c]).frames == s.conns[c].frames
  {
    hide LocalEnabled, LocalStep;
  }

  lemma ConnRelays(s: State, a: Action, c: nat)
    requires Valid(s) && Enabled(s, a) && Shapes(s) && AllPiped(s) && Flowing(s) && LogFits(s)
    requires c < |s.conns|
    ensures var s' := Apply(s, a);
            Relayed(s'.conns[c], Of(c, s'.handled) + Of(c, s'.msgs), s'.main == Serving)
  {
    NotLaunching(s, a, c);
    FlowsAt(s, c);
    ConnOf(s, a, c);
    PassedMoves(s, a, c);
    MainMoves(s, a);
    hide Apply, ConnAfter, Enabled, Shape, Piped, Of, LogFits, Id, Relayed, Flowing, Shapes, AllPiped;
    var k, passed := s.conns[c], Of(c, s.handled) + Of(c, s.msgs);
    assert passed + [] == passed;
    if Target(a) == Some(c) {
      OwnRelays(s, a, c, passed);
    } else {
      ServingEnds(k, passed, s.main == Serving, Apply(s, a).main == Serving);
    }
  }

  lemma FlowsAt(s: State, c: nat)
    requires Shapes(s) && AllPiped(s) && Flowing(s) && c < |s.conns|
    ensures Shape(s.conns[c]) && Piped(s.conns[c])
    ensures Relayed(s.conns[c], Of(c, s.handled) + Of(c, s.msgs), s.main == Serving)
  {
    hide Shape, Piped, Relayed, Of, Spoken, Chats;
  }

  lemma ConnOf(s: State, a: Action, c: nat)
    requires Valid(s) && Enabled(s, a) && c < |s.conns|
    ensures c < |Apply(s, a).conns|
    ensures Apply(s, a).conns[c] == if Target(a) == Some(c) then ConnAfter(s, a, s.conns[c]) else s.conns[c]
  {
    hide ConnAfter, SharedAfter, LocalEnabled, Locked;
  }

  /** A room with a connection has been launched. */
  lemma NotLaunching(s: State, a: Action, c: nat)
    requires Valid(s) && Enabled(s, a) && LogFits(s) && c < |s.conns|
    ensures !a.Launch?
  {
    hide Orderly, Joined, HasLeft, Closed, Ready;
  }

  /** When the main loop ends less is demanded. */
  lemma ServingEnds(k: Conn, passed: seq<WireMessage>, serving: bool, still: bool)
    requires Relayed(k, passed, serving) && (still ==> serving)
    ensures Relayed(k, passed, still)
  {
    hide Relay;
  }

  lemma OwnRelays(s: State, a: Action, c: nat, passed: seq<WireMessage>)
    requires Valid(s) && Enabled(s, a) && Target(a) == Some(c) && c < |s.conns|
    requires Shape(s.conns[c]) && Piped(s.conns[c]) && Relayed(s.conns[c], passed, s.main == Serving)
    ensures var more := if a.Pass? && s.main == Serving then [s.conns[c].reader.msg] else [];
      Relayed(ConnAfter(s, a, s.conns[c]), passed + more, s.main == Serving)
  {
    hide Shape, Piped, Relay, LocalStep, LocalEnabled, Id, Info, Locked, NoticeBytes;
    var k := s.conns[c];
    assert passed + [] == passed;
    if a.Do? {
      SignalledEnough(k, a.step, s.chats, s.signalled);
      LocalRelays(k, a.step, s.chats, passed, s.main == Serving);
    } else if a.Pass? {
      PassRelays(k, passed, s.main == Serving);
    } else {
      OthersRelay(s, a, c);
    }
  }

  lemma SignalledEnough(k: Conn, l: Local, chats: seq<WireMessage>, signalled: bool)
    requires k.taken <= |k.input| && LocalEnabled(k, l, chats, signalled)
    ensures LocalValidPre(k, l, chats)
  {
    hide Wire.TakeFrame;
  }

  lemma FlowStep(s: State, a: Action)
    requires Valid(s) && Enabled(s, a) && Shapes(s) && AllPiped(s) && Flowing(s) && LogFits(s)
    ensures Flowing(Apply(s, a))
  {
    hide SharedAfter, ConnAfter, Shape, Piped, Relayed, Of, Chats, Spoken, LogFits, LocalEnabled, Codecs.ToBase58;
    var s' := Apply(s, a);
    MainMoves(s, a);
    forall c: nat ensures Spoken(c, s'.attempts) == Chats(Of(c, s'.handled)) {
      SpokenMoves(s, a, c);
    }
    forall c | 0 <= c < |s'.conns|
      ensures Relayed(s'.conns[c], Of(c, s'.handled) + Of(c, s'.msgs), s'.main == Serving)
    {
      if c < |s.conns| {
        ConnRelays(s, a, c);
      } else {
        assert s'.conns[c] == FRESH_CONN && s'.handled == s.handled && s'.msgs == s.msgs;
        OfNone(c, s.handled);
        OfNone(c, s.msgs);
        FreshRelays(s'.main == Serving);
      }
    }
  }

  lemma FreshRelays(serving: bool)
    ensures Relayed(FRESH_CONN, [] + [], serving)
  {
  }

  lemma {:induction false} FlowHolds(host: string, run: seq<Action>)
    requires Exec(host, run).Some?
    ensures Flowing(Exec(host, run).value)
  {
    hide Shape, Apply, Enabled, Piped, Relayed, LogFits;
    if run == [] {
    } else {
      ExecLast(host, run);
      ShapesHold(host, run[..|run| - 1]);
      PipedHolds(host, run[..|run| - 1]);
      LogHolds(host, run[..|run| - 1]);
      FlowHolds(host, run[..|run| - 1]);
      FlowStep(Exec(host, run[..|run| - 1]).value, run[|run| - 1]);
    }
  }

  // ---- the theorems ----

  lemma ChatsPrefix(ms: seq<WireMessage>, all: seq<WireMessage>)
    requires ms <= all
    ensures Chats(ms) <= Chats(all)
  {
    assert all == ms + all[|ms|..];
    ChatsAppend(ms, all[|ms|..]);
  }

  /** In every reachable state the chats the host tried to report for a connection are, in order, a
      prefix of the chats its reader read; while the main loop serves they are all of them, once the
      connection's messages have left the channel and the reader is back at reading. */
  lemma Fifo(host: string, run: seq<Action>, c: nat)
    requires Exec(host, run).Some? && c < |Exec(host, run).value.conns|
    ensures var s := Exec(host, run).value;
            Spoken(c, s.attempts) <= Chats(Relay(s.conns[c].frames))
    ensures var s := Exec(host, run).value;
            s.main == Serving && s.conns[c].reader == Reading && Of(c, s.msgs) == []
            ==> Spoken(c, s.attempts) == Chats(Relay(s.conns[c].frames))
  {
    FlowHolds(host, run);
    var s := Exec(host, run).value;
    var k, passed := s.conns[c], Of(c, s.handled) + Of(c, s.msgs);
    hide Exec, Of, Relay, Chats, Spoken;
    assert Relayed(k, passed, s.main == Serving);
    assert Of(c, s.handled) <= passed <= Relay(k.frames);
    ChatsPrefix(Of(c, s.handled), Relay(k.frames));
    if s.main == Serving && k.reader == Reading && Of(c, s.msgs) == [] {
      assert passed + [] == passed == Of(c, s.handled);
    }
  }

  /** Two readings of the same bytes agree on the first frame. */
  lemma SameFirstFrame(f: Bytes, x: Bytes, g: Bytes, y: Bytes)
    requires Wire.IsFrame(f) && Wire.IsFrame(g) && f + x == g + y
    ensures f == g && x == y
  {
    Wire.FrameReads(f, x);
    Wire.FrameReads(g, y);
  }

  /** Frames read off the front of a stream are the first of the stream's frames. */
  lemma FramesFromFront(fs: seq<Bytes>, x: Bytes, gs: seq<Bytes>, torn: Bytes)
    requires Wire.AllFrames(fs) && Wire.AllFrames(gs) && Wire.TakeAll(torn).frames == []
    requires Concat(fs) + x == Concat(gs) + torn
    ensures fs <= gs
  {
    hide Wire.TakeAll, Wire.IsFrame, Concat;
    Wire.FramesThenRest(fs, x);
    Wire.FramesThenRest(gs, torn);
    assert gs + [] == gs;
  }

  lemma {:induction false} RelayOfFrames(ms: seq<WireMessage>, j: nat)
    requires Wire.AllEncode(ms) && j <= |ms| && forall i :: 0 <= i < |ms| ==> ms[i].kind == Chat
    ensures Relay(Wire.Frames(ms)[..j]) == ms[..j]
  {
    hide Wire.EncodeMessage, Wire.DecodeMessage;
    if j > 0 {
      var fs := Wire.Frames(ms)[..j];
      assert fs[..j - 1] == Wire.Frames(ms)[..j - 1];
      RelayOfFrames(ms, j - 1);
      Wire.MessageRoundTrip(ms[j - 1]);
      assert ms[..j] == ms[..j - 1] + [ms[j - 1]];
    }
  }

  lemma FramesAreFrames(ms: seq<WireMessage>)
    requires Wire.AllEncode(ms)
    ensures Wire.AllFrames(Wire.Frames(ms))
  {
    hide Wire.IsFrame, Wire.EncodeMessage;
    forall i | 0 <= i < |ms| ensures Wire.IsFrame(Wire.Frames(ms)[i]) {
      Wire.EncodingIsFrame(ms[i]);
    }
  }

  /** What a joiner puts on the wire: the 32 bytes, its name, its chats, and possibly the first bytes of
      a frame it could not finish. */
  function JoinerBytes(hello: Bytes, nameFrame: Bytes, chats: seq<WireMessage>, torn: Bytes): Bytes
    requires Wire.AllEncode(chats)
  {
    hello + (nameFrame + (Concat(Wire.Frames(chats)) + torn))
  }

  /** A connection that has read such bytes stands where the joiner's frames say. */
  lemma ReadsJoiner(k: Conn, hello: Bytes, nameFrame: Bytes, chats: seq<WireMessage>, torn: Bytes)
    requires Piped(k) && Stage(k.phase) >= 4 && Wire.AllEncode(chats)
    requires |hello| == HELLO && Wire.IsFrame(nameFrame) && Wire.TakeAll(torn).frames == []
    requires k.input <= JoinerBytes(hello, nameFrame, chats, torn)
    ensures k.input[HELLO..k.base] == nameFrame
    ensures k.frames <= Wire.Frames(chats)
  {
    hide Wire.TakeAll, Wire.IsFrame, Concat, Wire.EncodeMessage, Wire.DecodeMessage, Wire.AllEncode;
    var all := JoinerBytes(hello, nameFrame, chats, torn);
    var stream := Concat(Wire.Frames(chats)) + torn;
    var f := k.input[HELLO..k.base];
    assert all[HELLO..] == nameFrame + stream;
    assert f == all[HELLO..k.base];
    assert all[HELLO..] == f + all[k.base..];
    SameFirstFrame(f, all[k.base..], nameFrame, stream);
    assert k.input[k.base..k.taken] == all[k.base..k.taken];
    assert all[k.base..] == Concat(k.frames) + all[k.taken..];
    FramesAreFrames(chats);
    FramesFromFront(k.frames, all[k.taken..], Wire.Frames(chats), torn);
  }

  lemma JoinerChats(k: Conn, hello: Bytes, name: string, chats: seq<WireMessage>, torn: Bytes)
    requires Piped(k) && |hello| == HELLO
    requires Wire.EncodeMessage(SystemMessage(name)).Ok? && Wire.TakeAll(torn).frames == []
    requires Wire.AllEncode(chats) && forall i :: 0 <= i < |chats| ==> chats[i].kind == Chat
    requires k.input <= JoinerBytes(hello, Wire.EncodeMessage(SystemMessage(name)).value, chats, torn)
    ensures Chats(Relay(k.frames)) <= Chats(chats)
    ensures Stage(k.phase) >= 4 ==> k.name == name
  {
    hide Relay, Chats, Wire.TakeAll, Wire.IsFrame, Concat, Wire.EncodeMessage, Wire.DecodeMessage, JoinerBytes;
    if Stage(k.phase) >= 4 {
      var nameFrame := Wire.EncodeMessage(SystemMessage(name)).value;
      Wire.EncodingIsFrame(SystemMessage(name));
      Wire.MessageRoundTrip(SystemMessage(name));
      ReadsJoiner(k, hello, nameFrame, chats, torn);
      var j := |k.frames|;
      assert k.frames == Wire.Frames(chats)[..j];
      RelayOfFrames(chats, j);
      ChatsPrefix(chats[..j], chats);
    } else {
      NothingRelayed(k);
    }
  }

  /** End to end: however the bytes of a joiner arrive and however the tasks interleave, the host
      registers it under its own name, and the chats it tries to report for it are, in order, a prefix
      of the texts the joiner framed. What is then missing from the delivered events was turned away
      by a full or closed event channel (`RoomOrder.Channel`). */
  lemma EndToEnd(host: string, run: seq<Action>, c: nat, hello: Bytes, name: string,
                 chats: seq<WireMessage>, torn: Bytes)
    requires Exec(host, run).Some? && c < |Exec(host, run).value.conns|
    requires |hello| == HELLO && Wire.EncodeMessage(SystemMessage(name)).Ok? && Wire.TakeAll(torn).frames == []
    requires Wire.AllEncode(chats) && forall i :: 0 <= i < |chats| ==> chats[i].kind == Chat
    requires Exec(host, run).value.conns[c].input
          <= JoinerBytes(hello, Wire.EncodeMessage(SystemMessage(name)).value, chats, torn)
    ensures Spoken(c, Exec(host, run).value.attempts) <= Chats(chats)
    ensures Stage(Exec(host, run).value.conns[c].phase) >= 4 ==> Exec(host, run).value.conns[c].name == name
  {
    PipedHolds(host, run);
    Fifo(host, run, c);
    hide Exec, Piped, Relay, Chats, Spoken, JoinerBytes, Wire.TakeAll, Wire.EncodeMessage, Wire.AllEncode;
    JoinerChats(Exec(host, run).value.conns[c], hello, name, chats, torn);
  }

  lemma NothingRelayed(k: Conn)
    requires Piped(k) && Stage(k.phase) < 8
    ensures Chats(Relay(k.frames)) == []
  {
  }

  lemma VerdictOf(k: Conn)
    requires Piped(k) && Stage(k.phase) >= 4
    ensures Stream.RoomVerdict(k.input, {})
         == Stream.Verdict(Ok((Id(k), k.name)), [0], {Nonce(k)}, k.input[k.base..])
    ensures k.frames <= Wire.TakeAll(k.input[k.base..]).frames
  {
    hide Wire.TakeAll, Wire.TakeFrame, Wire.IsFrame, Concat, Wire.DecodeMessage, Codecs.ToBase58;
    var f, rest := k.input[HELLO..k.base], k.input[k.base..];
    assert Decodes(f) && k.input[HELLO..] == f + rest;
    Wire.FrameReads(f, rest);
    assert rest == k.input[k.base..k.taken] + k.input[k.taken..];
    Wire.FramesThenRest(k.frames, k.input[k.taken..]);
  }

  /** Step by step, under any interleaving, the handler comes to what `hub_handshake` computes when it
      runs alone on all the peer sent: the same id, name, answer and nonce, and the same place in the
      stream; and its reader has the first of the frames that `read_frame` would return from there. */
  lemma HandlerRefinesHandshake(host: string, run: seq<Action>, c: nat)
    requires Exec(host, run).Some? && c < |Exec(host, run).value.conns|
    requires Stage(Exec(host, run).value.conns[c].phase) >= 4
    ensures var k := Exec(host, run).value.conns[c];
            && |k.input| >= HELLO && k.base <= |k.input|
            && Stream.RoomVerdict(k.input, {})
               == Stream.Verdict(Ok((Id(k), k.name)), [0], {Nonce(k)}, k.input[k.base..])
            && k.frames <= Wire.TakeAll(k.input[k.base..]).frames
  {
    PipedHolds(host, run);
    hide Exec, Stream.RoomVerdict, Wire.TakeAll, Wire.DecodeMessage, Codecs.ToBase58;
    var k := Exec(host, run).value.conns[c];
    assert Piped(k);
    VerdictOf(k);
  }
}
