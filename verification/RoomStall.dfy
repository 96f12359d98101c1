/** The two writes of `room.rs` without a time limit: a peer that takes no bytes keeps its handler, and
    with the reject byte every other handshake, waiting through a shutdown. */
module RoomStall {
  import opened Basics
  import opened Json
  import opened Room
  import opened RoomNonces
  import opened RoomPeers
  import opened RoomOrder
  import opened RoomDrain
  import opened RoomLate
  import RoomBroadcast
  import Codecs
  import Wire

  predicate StreamStep(a: Action, c: nat) { a.Do? && a.c == c && (a.step.Take? || a.step.Break?) }

  lemma StuckStep(s: State, a: Action, c: nat)
    requires Valid(s) && Enabled(s, a) && c < |s.conns| && Stuck(s.conns[c]) && !StreamStep(a, c)
    ensures var k, k' := s.conns[c], Apply(s, a).conns[c];
            k'.phase == k.phase && k'.unsent == k.unsent && !k'.broken && k.input <= k'.input
    ensures !(Target(a) == Some(c) && HandlerStep(a))
    ensures s.conns[c].phase == Rejecting ==> !a.CheckNonce?
  {
    if Target(a) == Some(c) { StuckConn(s, a, c); }
    hide ConnAfter, SharedAfter, LocalEnabled, HandlerStep;
    if s.conns[c].phase == Rejecting { assert Locked(s.conns); }
  }

  lemma StuckConn(s: State, a: Action, c: nat)
    requires Valid(s) && Enabled(s, a) && c < |s.conns| && Stuck(s.conns[c]) && !StreamStep(a, c)
    requires Target(a) == Some(c)
    ensures var k, k' := s.conns[c], ConnAfter(s, a, s.conns[c]);
            k'.phase == k.phase && k'.unsent == k.unsent && !k'.broken && k.input <= k'.input
    ensures !HandlerStep(a)
  {
    hide LocalStep, LocalEnabled, Locked, Nonce;
    if a.Do? { StuckLocal(s.conns[c], a.step, s.chats, s.signalled); }
  }

  lemma StuckLocal(k: Conn, l: Local, chats: seq<WireMessage>, signalled: bool)
    requires k.taken <= |k.input| && LocalEnabled(k, l, chats, signalled) && Stuck(k) && !l.Take? && !l.Break?
    ensures var k' := LocalStep(k, l, chats);
            k'.phase == k.phase && k'.unsent == k.unsent && !k'.broken && k.input <= k'.input
    ensures !HandlerStep(Do(0, l))
  {
    hide Wire.TakeFrame;
    StepFields(k, l, chats);
    hide ReadNameStep, FetchStep, NextChatStep, WriteChatStep, TakeStep, NoticeStep;
  }

  /** As long as the stream neither takes a byte nor breaks, the handler takes no step, whatever else
      happens; and while it is the reject byte that waits, no handshake passes the nonce check. */
  lemma {:induction false} StallLasts(host: string, run: seq<Action>, more: seq<Action>, c: nat)
    requires Exec(host, run).Some? && Exec(host, run + more).Some?
    requires c < |Exec(host, run).value.conns| && Stuck(Exec(host, run).value.conns[c])
    requires forall i :: 0 <= i < |more| ==> !StreamStep(more[i], c)
    ensures var s, t := Exec(host, run).value, Exec(host, run + more).value;
      && c < |t.conns| && t.conns[c].phase == s.conns[c].phase && Stuck(t.conns[c])
      && s.conns[c].input <= t.conns[c].input
      && (s.conns[c].phase == Rejecting ==> t.nonces == s.nonces)
    ensures forall i :: 0 <= i < |more| ==> !(Target(more[i]) == Some(c) && HandlerStep(more[i]))
  {
    hide Enabled, Apply, HandlerStep;
    if more == [] {
      assert run + more == run;
    } else {
      var m, a := more[..|more| - 1], more[|more| - 1];
      assert (run + more)[..|run + more| - 1] == run + m;
      ExecLast(host, run + more);
      StallLasts(host, run, m, c);
      var s := Exec(host, run + m).value;
      StuckStep(s, a, c);
      SharedNonces(s, a);
      ConnsGrow(s, a);
    }
  }

  lemma ConnsGrow(s: State, a: Action)
    requires Valid(s) && Enabled(s, a)
    ensures |s.conns| <= |Apply(s, a).conns|
  {
    hide ConnAfter, SharedAfter, LocalEnabled;
  }

  /** A handler stuck in the join notice keeps its peer in the map, through a shutdown and for as long as
      its stream stays as it is. */
  lemma StuckStaysMapped(host: string, run: seq<Action>, more: seq<Action>, c: nat)
    requires Exec(host, run).Some? && Exec(host, run + more).Some?
    requires c < |Exec(host, run).value.conns| && Stuck(Exec(host, run).value.conns[c])
    requires Exec(host, run).value.conns[c].phase == Notifying
    requires forall i :: 0 <= i < |more| ==> !StreamStep(more[i], c)
    requires Distinct(Exec(host, run + more).value.conns)
    ensures var t := Exec(host, run + more).value;
      c < |t.conns| && |t.conns[c].input| >= HELLO && Id(t.conns[c]) in t.peers && Left(t.conns[c]) > 0
  {
    StallLasts(host, run, more, c);
    PeerMap(host, run + more);
    ShapesHold(host, run + more);
    var t := Exec(host, run + more).value;
    hide Exec, Id;
    assert Shape(t.conns[c]);
    assert Registered(t.conns[c]);
  }

  // ---- it happens ----

  /** One step of connection `c`, seen from outside. */
  lemma StepOf(host: string, run: seq<Action>, a: Action, c: nat)
    requires Exec(host, run).Some? && Enabled(Exec(host, run).value, a) && Target(a) == Some(c)
    ensures c < |Exec(host, run).value.conns| && Exec(host, run + [a]).Some?
    ensures var s, t := Exec(host, run).value, Exec(host, run + [a]).value;
      && t.conns == s.conns[c := ConnAfter(s, a, s.conns[c])] && t.main == s.main && t.accepting == s.accepting
      && t.nonces == s.nonces + (if a.CheckNonce? then {Nonce(s.conns[c])} else {})
  {
    hide ConnAfter, LocalEnabled, Id, Info, Nonce;
    ExecExtend(host, run, a);
    var s := Exec(host, run).value;
    MainMoves(s, a);
    NoncesAndChats(s, a);
    assert s.nonces + {} == s.nonces;
  }

  /** A peer connects, sends its 32 bytes, and they are read. */
  lemma Arriving(host: string, run: seq<Action>, hello: Bytes) returns (run': seq<Action>)
    requires |hello| == HELLO && Exec(host, run).Some? && Exec(host, run).value.accepting
    ensures Exec(host, run').Some?
    ensures var s, t := Exec(host, run).value, Exec(host, run').value;
      t.conns == s.conns + [Arrived(hello)] && t.nonces == s.nonces && t.accepting
  {
    hide Exec, Wire.TakeFrame, Wire.EncodeMessage, Codecs.ToBase58, SharedAfter;
    var c := |Exec(host, run).value.conns|;
    ExecExtend(host, run, Admit);
    AdmitOnly(Exec(host, run).value);
    run' := run + [Admit];
    StepOf(host, run', Do(c, Receive(hello)), c);
    run' := run' + [Do(c, Receive(hello))];
    assert [] + hello == hello;
    StepOf(host, run', Do(c, ReadHello), c);
    run' := run' + [Do(c, ReadHello)];
  }

  function Arrived(hello: Bytes): Conn { FRESH_CONN.(phase := Checking, input := hello, taken := HELLO) }

  lemma AdmitOnly(s: State)
    requires Valid(s) && s.accepting
    ensures Enabled(s, Admit)
    ensures Apply(s, Admit) == s.(conns := s.conns + [FRESH_CONN])
  {
  }

  lemma SignalOnly(host: string, run: seq<Action>)
    requires Exec(host, run).Some?
    ensures Exec(host, run + [Signal]) == Some(Exec(host, run).value.(signalled := true))
  {
    ExecExtend(host, run, Signal);
  }

  lemma LaunchOnly(host: string)
    ensures Exec(host, [Launch(true)]).Some?
    ensures var s := Exec(host, [Launch(true)]).value; s.conns == [] && s.nonces == {} && s.accepting
  {
    ExecExtend(host, [], Launch(true));
    assert [] + [Launch(true)] == [Launch(true)];
  }

  /** A replayed nonce: for any two hellos with different nonces there is a run in which the first peer
      passes, a second one shows the same bytes and is stuck in its reject byte, and a third, with a
      fresh nonce, waits for the lock; after the signal neither of the two has a step. */
  lemma RejectStalls(host: string, hello: Bytes, other: Bytes) returns (run: seq<Action>)
    requires |hello| == HELLO && |other| == HELLO && other[..16] != hello[..16]
    ensures Exec(host, run).Some? && |Exec(host, run).value.conns| == 3
    ensures var s := Exec(host, run).value;
      && s.signalled && s.nonces == {hello[..16]} && s.conns[1].phase == Rejecting && Stuck(s.conns[1])
      && s.conns[2] == Arrived(other) && !HasStep(s, 1) && !HasStep(s, 2)
  {
    hide Exec, Enabled, ConnAfter, HasStep, Stuck;
    LaunchOnly(host);
    run := Arriving(host, [Launch(true)], hello);
    assert [] + [Arrived(hello)] == [Arrived(hello)];
    run := Passing(host, run, hello);
    run := Arriving(host, run, hello);
    run := Refusing(host, run, hello);
    run := Arriving(host, run, other);
    SignalOnly(host, run);
    run := run + [Signal];
    ShapesHold(host, run);
    var s := Exec(host, run).value;
    WaitersStall(s);
  }

  lemma WaitersStall(s: State)
    requires Valid(s) && Shapes(s) && s.signalled && |s.conns| == 3
    requires s.conns[1].phase == Rejecting && Stuck(s.conns[1]) && s.conns[2].phase == Checking
    ensures !HasStep(s, 1) && !HasStep(s, 2)
  {
    hide HasStep;
    assert Locked(s.conns);
    HasStepExactly(s, 1);
    HasStepExactly(s, 2);
  }

  lemma Passing(host: string, run: seq<Action>, hello: Bytes) returns (run': seq<Action>)
    requires |hello| == HELLO && Exec(host, run).Some?
    requires var s := Exec(host, run).value; s.conns == [Arrived(hello)] && s.nonces == {} && s.accepting
    ensures Exec(host, run').Some?
    ensures var t := Exec(host, run').value;
      && |t.conns| == 1 && t.conns[0].phase == Accepting && t.nonces == {hello[..16]} && t.accepting
  {
    hide Exec;
    StepOf(host, run, CheckNonce(0), 0);
    run' := run + [CheckNonce(0)];
    assert {} + {hello[..16]} == {hello[..16]};
  }

  lemma Refusing(host: string, run: seq<Action>, hello: Bytes) returns (run': seq<Action>)
    requires |hello| == HELLO && Exec(host, run).Some?
    requires var s := Exec(host, run).value;
      |s.conns| == 2 && s.conns[0].phase == Accepting && s.conns[1] == Arrived(hello)
      && s.nonces == {hello[..16]} && s.accepting
    ensures Exec(host, run').Some?
    ensures var t := Exec(host, run').value;
      && |t.conns| == 2 && t.conns[1].phase == Rejecting && Stuck(t.conns[1])
      && t.nonces == {hello[..16]} && t.accepting
  {
    hide Exec;
    StepOf(host, run, CheckNonce(1), 1);
    run' := run + [CheckNonce(1)];
  }

  /** For any 32 bytes and any name whose frame and notice encode there is a run after whose signal the
      handler is stuck in the notice, its peer in the map and no step left to it. */
  lemma NoticeStalls(host: string, hello: Bytes, name: string) returns (run: seq<Action>)
    requires |hello| == HELLO && Wire.EncodeMessage(SystemMessage(name)).Ok? && NoticeFor(name).Ok?
    ensures Exec(host, run).Some? && |Exec(host, run).value.conns| == 1
    ensures var s := Exec(host, run).value;
      && s.signalled && !HasStep(s, 0) && Stuck(s.conns[0]) && s.conns[0].phase == Notifying
      && |s.conns[0].input| >= HELLO && Id(s.conns[0]) in s.peers
  {
    hide Exec, Wire.EncodeMessage, Wire.TakeFrame, Wire.DecodeMessage, Codecs.ToBase58, ReadNameStep, HasStep;
    var f := Wire.EncodeMessage(SystemMessage(name)).value;
    run := Opening(host, hello, f);
    var k := Opened(hello + f);
    assert k.input[HELLO..] == f + [];
    ReadingName(k, name, []);
    NameRead(k, name, []);
    OneMore(host, run, Do(0, ReadName), k);
    run := Noticing(host, run + [Do(0, ReadName)], ReadNameStep(k));
  }

  lemma NameRead(k: Conn, name: string, rest: Bytes)
    requires k.phase == AwaitName && k.taken <= |k.input| && Wire.EncodeMessage(SystemMessage(name)).Ok?
    requires k.input[k.taken..] == Wire.EncodeMessage(SystemMessage(name)).value + rest
    ensures ReadNameStep(k).name == name && ReadNameStep(k).unsent == k.unsent && ReadNameStep(k).broken == k.broken
  {
    hide Wire.TakeFrame, Wire.EncodeMessage, Wire.DecodeMessage, Wire.IsFrame;
    var f := Wire.EncodeMessage(SystemMessage(name)).value;
    Wire.EncodingIsFrame(SystemMessage(name));
    Wire.MessageRoundTrip(SystemMessage(name));
    Wire.FrameReads(f, rest);
  }

  lemma Noticing(host: string, run: seq<Action>, k: Conn) returns (run': seq<Action>)
    requires Exec(host, run).Some? && Alone(Exec(host, run).value, k)
    requires k.phase == Registering && !k.broken && |k.input| >= HELLO && NoticeFor(k.name).Ok?
    ensures Exec(host, run').Some? && |Exec(host, run').value.conns| == 1
    ensures var s := Exec(host, run').value;
      && s.signalled && !HasStep(s, 0) && Stuck(s.conns[0]) && s.conns[0].phase == Notifying
      && |s.conns[0].input| >= HELLO && Id(s.conns[0]) in s.peers
  {
    hide Exec, LocalStep, LocalEnabled, Id, Info, NoticeFor, HasStep;
    OneMore(host, run, Insert(0), k);
    OneMore(host, run + [Insert(0)], Announce(0), k.(phase := Announcing));
    run' := run + [Insert(0)] + [Announce(0)];
    RoomBroadcast.NoticeIsFrame(k.name);
    SignalOnly(host, run');
    run' := run' + [Signal];
    ShapesHold(host, run');
    PeerMap(host, run');
    AloneStalls(Exec(host, run').value);
  }

  lemma AloneStalls(s: State)
    requires Valid(s) && Shapes(s) && s.signalled && |s.conns| == 1
    requires Stuck(s.conns[0]) && s.conns[0].phase == Notifying && (Distinct(s.conns) ==> PeersExact(s))
    ensures !HasStep(s, 0) && |s.conns[0].input| >= HELLO && Id(s.conns[0]) in s.peers
  {
    hide HasStep, Id;
    HasStepExactly(s, 0);
    assert Shape(s.conns[0]) && Registered(s.conns[0]);
    assert Distinct(s.conns);
  }
}
