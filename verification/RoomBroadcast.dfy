/** What each peer gets of the host's chats: the bytes written to it and the fate of every chat. */
module RoomBroadcast {
  import opened Basics
  import opened Json
  import opened Room
  import opened RoomNonces
  import RoomTexts
  import Wire
  import Codecs

  /** The chats from number `start` on whose fate is to have been written. */
  function Kept(start: nat, fates: seq<Fate>, chats: seq<WireMessage>): (ms: seq<WireMessage>)
    ensures Wire.AllEncode(ms)
  {
    if fates == [] then []
    else
      var n := |fates| - 1;
      var rest := Kept(start, fates[..n], chats);
      if fates[n] == Written && start + n < |chats| && Wire.EncodeMessage(chats[start + n]).Ok?
      then rest + [chats[start + n]]
      else rest
  }

  /** Each fate says what happened: a chat is written only if it encodes and passed over only if it does
      not, if it was overwritten while the writer was more than 256 behind, or if writing failed. */
  ghost predicate FateTrue(k: Conn, i: nat, chats: seq<WireMessage>)
    requires i < |k.fates|
  {
    var pos := k.start + i;
    && pos < |chats|
    && match k.fates[i]
       case Written => Wire.EncodeMessage(chats[pos]).Ok?
       case TooLarge => Wire.EncodeMessage(chats[pos]).Err?
       case Overwritten(tail) => pos + 256 < tail <= |chats|
       case WriteFailed => k.scrap.Some?
  }

  /** The frames meant for the peer so far: the join notice and the chats kept. */
  function Outgoing(k: Conn, chats: seq<WireMessage>): seq<Bytes> {
    k.notice + Wire.Frames(Kept(k.start, k.fates, chats))
  }

  ghost predicate WriterFits(k: Conn, chats: seq<WireMessage>) {
    && (Stage(k.phase) < 9 ==> k.fates == [])
    && (k.writer != NoWriter ==> NextPos(k) <= |chats|)
    && (k.writer.Sending? ==> NextPos(k) < |chats| && Wire.EncodeMessage(chats[NextPos(k)]) == Ok(k.writer.frame))
    && (forall i :: 0 <= i < |k.fates| ==> FateTrue(k, i, chats))
  }

  /** The piece already out and the bytes still to go make up the notice. */
  predicate NoticeUnderWay(k: Conn) {
    match NoticeFor(k.name)
    case Err(_) => k.unsent == [] && k.notice == [] && k.scrap == None
    case Ok(f) =>
      if k.unsent == [] then k.notice == [f] && k.scrap == None else k.notice == [] && Torn(k) + k.unsent == f
  }

  ghost predicate OutputFits(k: Conn, chats: seq<WireMessage>) {
    && (Stage(k.phase) < 6 ==> k.notice == [] && k.scrap == None)
    && (k.notice != [] ==> NoticeFor(k.name).Ok? && k.notice == [NoticeFor(k.name).value])
    && (k.phase == Notifying ==> NoticeUnderWay(k))
    && (k.scrap.Some? ==> Wire.TakeAll(k.scrap.value).frames == [])
    && (Stage(k.phase) >= 3 ==> k.output == [0] + (Concat(Outgoing(k, chats)) + Torn(k)))
  }

  ghost predicate Broadcasts(k: Conn, chats: seq<WireMessage>) { WriterFits(k, chats) && OutputFits(k, chats) }

  lemma FramesSnoc(ms: seq<WireMessage>, m: WireMessage)
    requires Wire.AllEncode(ms) && Wire.EncodeMessage(m).Ok?
    ensures Wire.AllEncode(ms + [m]) && Wire.Frames(ms + [m]) == Wire.Frames(ms) + [Wire.EncodeMessage(m).value]
  {
    hide Wire.EncodeMessage;
  }

  lemma {:induction false} KeptGrows(start: nat, fates: seq<Fate>, chats: seq<WireMessage>, more: seq<WireMessage>)
    requires start + |fates| <= |chats|
    ensures Kept(start, fates, chats + more) == Kept(start, fates, chats)
  {
    hide Wire.EncodeMessage;
    if fates != [] { KeptGrows(start, fates[..|fates| - 1], chats, more); }
  }

  lemma KeptSnoc(start: nat, fates: seq<Fate>, fate: Fate, chats: seq<WireMessage>)
    ensures Kept(start, fates + [fate], chats)
         == if fate == Written && start + |fates| < |chats| && Wire.EncodeMessage(chats[start + |fates|]).Ok?
            then Kept(start, fates, chats) + [chats[start + |fates|]] else Kept(start, fates, chats)
  {
    hide Wire.EncodeMessage;
    assert (fates + [fate])[..|fates|] == fates;
  }

  lemma {:induction false} KeptOverwritten(start: nat, fates: seq<Fate>, t: nat, n: nat, chats: seq<WireMessage>)
    ensures Kept(start, fates + Repeat(Overwritten(t), n), chats) == Kept(start, fates, chats)
  {
    hide Wire.EncodeMessage;
    if n == 0 {
      assert fates + Repeat(Overwritten(t), 0) == fates;
    } else {
      var fs := fates + Repeat(Overwritten(t), n - 1);
      assert fates + Repeat(Overwritten(t), n) == fs + [Overwritten(t)];
      KeptSnoc(start, fs, Overwritten(t), chats);
      KeptOverwritten(start, fates, t, n - 1, chats);
    }
  }

  // ---- steps ----

  /** A part of a frame reads as no frame. */
  lemma TornReadsNothing(f: Bytes, n: nat)
    requires Wire.IsFrame(f) && n < |f|
    ensures Wire.TakeAll(f[..n]).frames == []
  {
    Wire.CutFrames(f, n);
  }

  /** Before the subscription the notice is all there is to send. */
  lemma OnlyNotice(k: Conn, chats: seq<WireMessage>)
    requires k.fates == []
    ensures Outgoing(k, chats) == k.notice
  {
    hide Wire.EncodeMessage, NoticeFor;
    KeptNothing(k.start, chats);
    assert k.notice + Wire.Frames([]) == k.notice;
  }

  lemma NoticeIsFrame(name: string)
    requires NoticeFor(name).Ok?
    ensures Wire.IsFrame(NoticeFor(name).value) && NoticeFor(name).value != []
  {
    Wire.EncodingIsFrame(SystemMessage(name + " joined"));
  }

  lemma AnnounceFits(k: Conn, chats: seq<WireMessage>)
    requires Shape(k) && Broadcasts(k, chats) && k.phase == Announcing
    ensures Broadcasts(k.(phase := Notifying, unsent := NoticeBytes(k.name)), chats)
  {
    hide Wire.EncodeMessage, Wire.TakeAll, Wire.IsFrame, Kept, Concat, NoticeFor;
    var k' := k.(phase := Notifying, unsent := NoticeBytes(k.name));
    OnlyNotice(k, chats);
    OnlyNotice(k', chats);
    if NoticeFor(k.name).Ok? {
      NoticeIsFrame(k.name);
      assert [] + k'.unsent == k'.unsent;
    }
  }

  lemma TakeFits(k: Conn, n: nat, chats: seq<WireMessage>)
    requires Shape(k) && Broadcasts(k, chats) && 0 < n <= |k.unsent|
    ensures Broadcasts(TakeStep(k, n), chats)
  {
    hide Wire.EncodeMessage, Wire.TakeAll, Wire.IsFrame, Kept, NoticeFor, Concat, FateTrue;
    var k' := TakeStep(k, n);
    OnlyNotice(k, chats);
    OnlyNotice(k', chats);
    if k.phase == Notifying {
      NoticeIsFrame(k.name);
      PartTaken(k, n);
    }
  }

  /** While the notice goes out, what is out of it is a torn piece, until it is the notice. */
  lemma PartTaken(k: Conn, n: nat)
    requires k.phase == Notifying && NoticeUnderWay(k) && 0 < n <= |k.unsent| && Wire.IsFrame(NoticeFor(k.name).value)
    requires k.output == [0] + (Concat(k.notice) + Torn(k))
    ensures var k' := TakeStep(k, n);
      && NoticeUnderWay(k') && k'.output == [0] + (Concat(k'.notice) + Torn(k'))
      && (k'.scrap.Some? ==> Wire.TakeAll(k'.scrap.value).frames == [])
  {
    hide Wire.EncodeMessage, Wire.TakeAll, Wire.IsFrame, NoticeFor;
    var f, piece := NoticeFor(k.name).value, Torn(k) + k.unsent[..n];
    assert k.unsent == k.unsent[..n] + k.unsent[n..];
    assert piece + k.unsent[n..] == f;
    assert Concat(k.notice) == [];
    if n < |k.unsent| {
      assert piece == f[..|piece|];
      TornReadsNothing(f, |piece|);
    } else {
      assert piece == f && [f][1..] == [] && Concat([f]) == f + [];
    }
  }

  lemma NoticeFits(k: Conn, chats: seq<WireMessage>)
    requires Shape(k) && Broadcasts(k, chats) && k.phase == Notifying && (k.unsent == [] || k.broken)
    ensures Broadcasts(NoticeStep(k), chats)
  {
    hide Wire.EncodeMessage, Wire.TakeAll, Wire.IsFrame, Kept, NoticeFor, Concat;
    OnlyNotice(k, chats);
    OnlyNotice(NoticeStep(k), chats);
    Wire.NothingLeft();
  }

  lemma KeptNothing(start: nat, chats: seq<WireMessage>)
    ensures Kept(start, [], chats) == []
  {
  }

  lemma NextChatFates(k: Conn, chats: seq<WireMessage>)
    requires WriterFits(k, chats) && Stage(k.phase) >= 9 && k.writer == Idle && NextPos(k) < |chats|
    ensures WriterFits(NextChatStep(k, chats), chats)
  {
    hide Wire.EncodeMessage;
    var k' := NextChatStep(k, chats);
    forall i | 0 <= i < |k'.fates| ensures FateTrue(k', i, chats) {
      if i < |k.fates| { assert FateTrue(k, i, chats); }
    }
  }

  lemma NextChatKept(k: Conn, chats: seq<WireMessage>)
    requires NextPos(k) < |chats|
    ensures var k' := NextChatStep(k, chats); Kept(k'.start, k'.fates, chats) == Kept(k.start, k.fates, chats)
  {
    hide Wire.EncodeMessage, Kept, Repeat;
    if |chats| - NextPos(k) > RING {
      var lost := |chats| - RING - NextPos(k);
      assert NextChatStep(k, chats) == k.(fates := k.fates + Repeat(Overwritten(|chats|), lost));
      KeptOverwritten(k.start, k.fates, |chats|, lost, chats);
    } else if Wire.EncodeMessage(chats[NextPos(k)]).Err? {
      assert NextChatStep(k, chats) == k.(fates := k.fates + [TooLarge]);
      KeptSnoc(k.start, k.fates, TooLarge, chats);
    } else {
      assert NextChatStep(k, chats).fates == k.fates;
    }
  }

  lemma NextChatFits(k: Conn, chats: seq<WireMessage>)
    requires Broadcasts(k, chats) && Stage(k.phase) >= 9 && k.writer == Idle && NextPos(k) < |chats|
    ensures Broadcasts(NextChatStep(k, chats), chats)
  {
    hide WriterFits, Wire.EncodeMessage, Wire.TakeAll, Kept, NoticeFor, Concat, Wire.Frames, Repeat;
    NextChatFates(k, chats);
    NextChatKept(k, chats);
  }

  lemma WriteChatFates(k: Conn, count: nat, stop: bool, chats: seq<WireMessage>)
    requires WriterFits(k, chats) && Stage(k.phase) >= 9
    requires k.writer.Sending? && count <= |k.writer.frame| && (k.scrap.Some? ==> count == 0)
    ensures WriterFits(WriteChatStep(k, count, stop), chats)
  {
    hide Wire.EncodeMessage;
    var k' := WriteChatStep(k, count, stop);
    forall i | 0 <= i < |k'.fates| ensures FateTrue(k', i, chats) {
      if i < |k.fates| { assert FateTrue(k, i, chats); }
    }
  }

  lemma WholeWriteFits(k: Conn, count: nat, stop: bool, chats: seq<WireMessage>)
    requires Broadcasts(k, chats) && Stage(k.phase) >= 9
    requires k.writer.Sending? && count == |k.writer.frame| && k.scrap.None?
    ensures OutputFits(WriteChatStep(k, count, stop), chats)
  {
    hide Wire.EncodeMessage, Wire.TakeAll, Kept, Concat, FateTrue, NoticeFor;
    var k', f := WriteChatStep(k, count, stop), k.writer.frame;
    KeptSnoc(k.start, k.fates, Written, chats);
    FramesSnoc(Kept(k.start, k.fates, chats), chats[NextPos(k)]);
    ConcatSnoc(Outgoing(k, chats), f);
    assert Outgoing(k', chats) == Outgoing(k, chats) + [f];
  }

  lemma TornWriteFits(k: Conn, count: nat, stop: bool, chats: seq<WireMessage>)
    requires Broadcasts(k, chats) && Stage(k.phase) >= 9
    requires k.writer.Sending? && count <= |k.writer.frame| && (k.scrap.Some? ==> count == 0)
    requires count < |k.writer.frame| || k.scrap.Some?
    ensures OutputFits(WriteChatStep(k, count, stop), chats)
  {
    hide Wire.EncodeMessage, Wire.TakeAll, Wire.IsFrame, Kept, Concat, FateTrue, NoticeFor;
    var k', f := WriteChatStep(k, count, stop), k.writer.frame;
    Wire.EncodingIsFrame(chats[NextPos(k)]);
    KeptSnoc(k.start, k.fates, WriteFailed, chats);
    assert Outgoing(k', chats) == Outgoing(k, chats);
    if k.scrap.None? { TornReadsNothing(f, count); }
  }

  lemma WriteChatFits(k: Conn, count: nat, stop: bool, chats: seq<WireMessage>)
    requires Broadcasts(k, chats) && Stage(k.phase) >= 9
    requires k.writer.Sending? && count <= |k.writer.frame| && (k.scrap.Some? ==> count == 0)
    ensures Broadcasts(WriteChatStep(k, count, stop), chats)
  {
    hide WriterFits, OutputFits, WriteChatStep, Wire.TakeAll, Wire.IsFrame;
    WriteChatFates(k, count, stop, chats);
    if count == |k.writer.frame| && k.scrap.None? {
      WholeWriteFits(k, count, stop, chats);
    } else {
      TornWriteFits(k, count, stop, chats);
    }
  }

  /** A step that writes nothing to the peer leaves its side of the stream as it was. */
  predicate SameSide(k: Conn, k': Conn) {
    && k'.output == k.output && k'.scrap == k.scrap && k'.notice == k.notice
    && k'.fates == k.fates && (k.fates != [] || k.writer != NoWriter ==> k'.start == k.start)
    && (k.notice != [] ==> k'.name == k.name)
    && (k'.writer == k.writer || k'.writer == WriterDone || (k.writer == NoWriter && k'.writer == Idle))
    && (Stage(k'.phase) < 6 ==> Stage(k.phase) < 6)
    && (k'.phase == Notifying ==> k.phase == Notifying && k'.unsent == k.unsent && k'.name == k.name)
    && (Stage(k'.phase) >= 3 ==> Stage(k.phase) >= 3)
    && (Stage(k'.phase) < 9 ==> Stage(k.phase) < 9)
  }

  lemma SameSideFits(k: Conn, k': Conn, chats: seq<WireMessage>)
    requires Broadcasts(k, chats) && SameSide(k, k')
    requires k.writer == NoWriter && k'.writer != NoWriter ==> k'.start == |chats| && k.fates == []
    ensures Broadcasts(k', chats)
  {
    hide Wire.EncodeMessage, Wire.TakeAll, Kept, NoticeFor, Concat;
    if k.fates == [] {
      KeptNothing(k.start, chats);
      KeptNothing(k'.start, chats);
    }
    forall i | 0 <= i < |k'.fates| ensures FateTrue(k', i, chats) {
      assert FateTrue(k, i, chats);
    }
    assert Outgoing(k', chats) == Outgoing(k, chats);
  }

  lemma QuietSteps(k: Conn, l: Local, chats: seq<WireMessage>)
    requires Shape(k) && LocalEnabled(k, l, chats, true) && (Stage(k.phase) < 9 ==> k.fates == [])
    requires Stage(k.phase) < 6 ==> k.notice == []
    requires !l.Notice? && !l.Take? && !l.NextChat? && !l.WriteChat? && !l.Acknowledge?
    ensures SameSide(k, LocalStep(k, l, chats))
    ensures k.writer == NoWriter && LocalStep(k, l, chats).writer != NoWriter
        ==> LocalStep(k, l, chats).start == |chats|
  {
    hide Wire.EncodeMessage, Wire.DecodeMessage, Wire.TakeFrame;
  }

  lemma AcknowledgeFits(k: Conn, l: Local, chats: seq<WireMessage>)
    requires Shape(k) && Broadcasts(k, chats) && l.Acknowledge? && LocalEnabled(k, l, chats, true)
    ensures Broadcasts(LocalStep(k, l, chats), chats)
  {
    hide Wire.EncodeMessage, Wire.TakeAll, NoticeFor, Kept;
    KeptNothing(k.start, chats);
    assert [] + Wire.Frames([]) == [];
    assert [0] + (Concat([]) + []) == [0];
  }

  lemma LocalFits(k: Conn, l: Local, chats: seq<WireMessage>)
    requires Shape(k) && LocalEnabled(k, l, chats, true) && Broadcasts(k, chats)
    ensures Broadcasts(LocalStep(k, l, chats), chats)
  {
    hide Wire.EncodeMessage, Wire.DecodeMessage, Wire.TakeFrame, Wire.TakeAll, Kept, NoticeFor, OutputFits, Concat;
    match l
    case Notice => NoticeFits(k, chats);
    case Take(n) => TakeFits(k, n, chats);
    case NextChat => NextChatFits(k, chats);
    case WriteChat(count, stop) => WriteChatFits(k, count, stop, chats);
    case Acknowledge(_, _) => AcknowledgeFits(k, l, chats);
    case _ =>
      NoNotice(k, chats);
      QuietSteps(k, l, chats);
      SameSideFits(k, LocalStep(k, l, chats), chats);
  }

  lemma NoNotice(k: Conn, chats: seq<WireMessage>)
    requires Broadcasts(k, chats)
    ensures Stage(k.phase) < 6 ==> k.notice == []
    ensures Stage(k.phase) < 9 ==> k.fates == []
  {
  }

  lemma ChatsGrow(k: Conn, chats: seq<WireMessage>, m: WireMessage)
    requires Shape(k) && Broadcasts(k, chats)
    ensures Broadcasts(k, chats + [m])
  {
    hide Wire.EncodeMessage, Wire.TakeAll, Kept, NoticeFor, Concat;
    if k.writer == NoWriter {
      assert k.fates == [];
      KeptNothing(k.start, chats);
      KeptNothing(k.start, chats + [m]);
    } else {
      KeptGrows(k.start, k.fates, chats, [m]);
    }
    forall i | 0 <= i < |k.fates| ensures FateTrue(k, i, chats + [m]) {
      assert FateTrue(k, i, chats);
    }
  }

  /** Outside its own steps a connection's stream is written to only by the nonce check, before
      anything else. */
  lemma SharedSteps(s: State, a: Action, c: nat)
    requires Valid(s) && Enabled(s, a) && Target(a) == Some(c) && !a.Do? && Shape(s.conns[c])
    requires Broadcasts(s.conns[c], s.chats)
    ensures Broadcasts(ConnAfter(s, a, s.conns[c]), s.chats)
  {
    hide Wire.EncodeMessage, Wire.TakeAll, Kept, NoticeFor, Concat, LocalStep, LocalEnabled, Codecs.ToBase58;
    var k, k' := s.conns[c], ConnAfter(s, a, s.conns[c]);
    if a.Announce? {
      AnnounceFits(k, s.chats);
    } else if a.CheckNonce? {
      assert Stage(k'.phase) < 3 && k'.fates == k.fates;
    } else {
      assert SameSide(k, k');
      SameSideFits(k, k', s.chats);
    }
  }

  ghost predicate AllBroadcast(s: State) {
    forall c :: 0 <= c < |s.conns| ==> Broadcasts(s.conns[c], s.chats)
  }

  lemma ChatsMove(s: State, a: Action)
    requires Valid(s) && Enabled(s, a)
    ensures a.MainText? && s.main == Serving
        ==> Apply(s, a).chats == s.chats + [ChatMessage(s.hostName, s.texts[0])] && Apply(s, a).conns == s.conns
    ensures !(a.MainText? && s.main == Serving) ==> Apply(s, a).chats == s.chats
  {
    hide ConnAfter, SharedAfter, LocalEnabled;
    RoomTexts.TextsMove(s, a);
  }

  lemma BroadcastStep(s: State, a: Action)
    requires Valid(s) && Enabled(s, a) && Shapes(s) && AllBroadcast(s)
    ensures AllBroadcast(Apply(s, a))
  {
    hide SharedAfter, ConnAfter, LocalEnabled, Shape, Broadcasts, Codecs.ToBase58;
    ChatsMove(s, a);
    var s' := Apply(s, a);
    forall c | 0 <= c < |s'.conns| ensures Broadcasts(s'.conns[c], s'.chats) {
      if c >= |s.conns| {
        FreshBroadcasts(s'.chats);
      } else if s'.chats != s.chats {
        ChatsGrow(s.conns[c], s.chats, ChatMessage(s.hostName, s.texts[0]));
      } else if Target(a) == Some(c) {
        TargetBroadcasts(s, a, c);
      }
    }
  }

  lemma TargetBroadcasts(s: State, a: Action, c: nat)
    requires Valid(s) && Enabled(s, a) && Target(a) == Some(c) && Shape(s.conns[c]) && Broadcasts(s.conns[c], s.chats)
    ensures Broadcasts(ConnAfter(s, a, s.conns[c]), s.chats)
  {
    hide Broadcasts, Shape, LocalStep, Codecs.ToBase58, Wire.TakeFrame;
    if a.Do? {
      LocalFits(s.conns[c], a.step, s.chats);
    } else {
      SharedSteps(s, a, c);
    }
  }

  lemma FreshBroadcasts(chats: seq<WireMessage>)
    ensures Broadcasts(FRESH_CONN, chats)
  {
    hide Wire.EncodeMessage, Wire.TakeAll;
  }

  lemma {:induction false} BroadcastHolds(host: string, run: seq<Action>)
    requires Exec(host, run).Some?
    ensures AllBroadcast(Exec(host, run).value)
  {
    hide Shape, Apply, Enabled, Broadcasts;
    if run != [] {
      ExecLast(host, run);
      ShapesHold(host, run[..|run| - 1]);
      BroadcastHolds(host, run[..|run| - 1]);
      BroadcastStep(Exec(host, run[..|run| - 1]).value, run[|run| - 1]);
    }
  }

  // ---- the theorems ----

  /** The kept chats are the host's chats at increasing positions since the subscription. */
  lemma {:induction false} KeptPositions(start: nat, fates: seq<Fate>, chats: seq<WireMessage>) returns (at: seq<nat>)
    ensures |at| == |Kept(start, fates, chats)|
    ensures forall i :: 0 <= i < |at| ==> start <= at[i] < start + |fates| && at[i] < |chats|
    ensures forall i :: 0 <= i < |at| ==> Kept(start, fates, chats)[i] == chats[at[i]]
    ensures forall i, j :: 0 <= i < j < |at| ==> at[i] < at[j]
  {
    hide Wire.EncodeMessage, Kept;
    at := [];
    if fates == [] {
      KeptNothing(start, chats);
    } else {
      var n := |fates| - 1;
      at := KeptPositions(start, fates[..n], chats);
      KeptSnoc(start, fates[..n], fates[n], chats);
      assert fates[..n] + [fates[n]] == fates;
      if |Kept(start, fates, chats)| > |at| { at := at + [start + n]; }
    }
  }

  /** A peer that reads its stream after the accept byte, at any time and cut in any way, gets exactly
      the join notice and the kept chats, each decoding to what the host sent; also when a write was
      torn off. Every chat since the subscription that the writer has dealt with has one true fate. */
  lemma Delivery(host: string, run: seq<Action>, c: nat)
    requires Exec(host, run).Some? && c < |Exec(host, run).value.conns|
    requires Stage(Exec(host, run).value.conns[c].phase) >= 3
    ensures var s, k := Exec(host, run).value, Exec(host, run).value.conns[c];
      && k.output != [] && k.output[0] == 0
      && Wire.TakeAll(k.output[1..]).frames == Outgoing(k, s.chats)
      && (forall i :: 0 <= i < |k.fates| ==> FateTrue(k, i, s.chats))
      && (k.notice == [] || (|k.notice| == 1 && NoticeFor(k.name) == Ok(k.notice[0])))
    ensures var s, k := Exec(host, run).value, Exec(host, run).value.conns[c];
      forall i :: 0 <= i < |Kept(k.start, k.fates, s.chats)| ==>
        Wire.DecodeMessage(Wire.Frames(Kept(k.start, k.fates, s.chats))[i]) == Ok(Kept(k.start, k.fates, s.chats)[i])
  {
    BroadcastHolds(host, run);
    var s := Exec(host, run).value;
    hide Exec;
    assert Broadcasts(s.conns[c], s.chats);
    ReadBack(s.conns[c], s.chats);
  }

  lemma ReadBack(k: Conn, chats: seq<WireMessage>)
    requires Broadcasts(k, chats) && Stage(k.phase) >= 3
    ensures k.output != [] && k.output[0] == 0
    ensures Wire.TakeAll(k.output[1..]).frames == Outgoing(k, chats)
    ensures var kept := Kept(k.start, k.fates, chats);
      forall i :: 0 <= i < |kept| ==> Wire.DecodeMessage(Wire.Frames(kept)[i]) == Ok(kept[i])
  {
    hide Wire.EncodeMessage, Wire.DecodeMessage, Wire.TakeAll, Wire.IsFrame, Kept, Concat;
    var out, kept := Outgoing(k, chats), Kept(k.start, k.fates, chats);
    assert k.output[1..] == Concat(out) + Torn(k);
    forall i | 0 <= i < |kept|
      ensures Wire.IsFrame(Wire.Frames(kept)[i]) && Wire.DecodeMessage(Wire.Frames(kept)[i]) == Ok(kept[i])
    {
      Wire.EncodingIsFrame(kept[i]);
      Wire.MessageRoundTrip(kept[i]);
    }
    if k.notice != [] { Wire.EncodingIsFrame(SystemMessage(k.name + " joined")); }
    Wire.FramesThenRest(out, Torn(k));
    Wire.NothingLeft();
    assert out + [] == out;
  }

  /** When no chat was too large, overwritten or torn, the peer has every chat since it subscribed. */
  lemma {:induction false} NothingSkipped(start: nat, fates: seq<Fate>, chats: seq<WireMessage>)
    requires start + |fates| <= |chats|
    requires forall i :: 0 <= i < |fates| ==> fates[i] == Written && Wire.EncodeMessage(chats[start + i]).Ok?
    ensures Kept(start, fates, chats) == chats[start..start + |fates|]
  {
    hide Wire.EncodeMessage;
    if fates != [] {
      var n := |fates| - 1;
      NothingSkipped(start, fates[..n], chats);
      assert chats[start..start + n + 1] == chats[start..start + n] + [chats[start + n]];
    }
  }
}
