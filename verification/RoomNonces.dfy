/** What each connection's phase implies about it, and the single use of nonces. */
module RoomNonces {
  import opened Basics
  import opened Room
  import Wire

  /** Progress of a handler through its phases; a failed one is back at zero. */
  function Stage(p: Phase): nat {
    match p
    case AwaitHello => 0
    case Checking => 1
    case Accepting => 2
    case AwaitName => 3
    case Registering => 4
    case Announcing => 5
    case Notifying => 6
    case Starting => 7
    case Subscribing => 8
    case Running => 9
    case Removing => 10
    case Leaving => 11
    case Gone => 12
    case Rejecting => 0
    case Failed => 0
  }

  predicate Accepted(k: Conn) { k.output != [] && k.output[0] == 0 }

  predicate Shape(k: Conn) {
    var n := Stage(k.phase);
    && k.taken <= |k.input|
    && (n >= 1 || k.burned ==> |k.input| >= HELLO)
    && (n >= 1 ==> k.taken >= HELLO)
    && (n >= 2 ==> k.burned)
    && (n <= 1 && k.phase != Failed ==> !k.burned)
    && (n <= 2 && k.phase != Failed && k.phase != Rejecting ==> k.output == [])
    && (k.phase == Rejecting ==> k.output + k.unsent == [1])
    && (k.phase != Rejecting && k.phase != Notifying ==> k.unsent == [])
    && (n >= 3 ==> Accepted(k))
    && (Accepted(k) ==> k.burned)
    && (k.reader == NoReader <==> n < 8)
    && (k.writer == NoWriter <==> n < 9)
  }

  ghost predicate Shapes(s: State) { forall c :: 0 <= c < |s.conns| ==> Shape(s.conns[c]) }

  lemma LocalShape(k: Conn, l: Local, chats: seq<Json.WireMessage>, signalled: bool)
    requires Shape(k) && LocalEnabled(k, l, chats, signalled)
    ensures Shape(LocalStep(k, l, chats))
  {
    hide Wire.TakeFrame, Wire.DecodeMessage, Wire.EncodeMessage;
    if l.Take? {
      TakeShape(k, l.n);
    } else if l.WriteChat? {
      WriteChatFields(k, l.count, l.stop);
      hide WriteChatStep;
    } else if l.ReadHello? || l.Acknowledge? || l.ReadName? || l.GiveUp? || l.Reject? || l.Notice? {
      LocalValid(k, l, chats, signalled);
      HandshakeShape(k, l, chats);
    } else {
      LocalValid(k, l, chats, signalled);
      StepFields(k, l, chats);
      hide ReadNameStep, FetchStep, NextChatStep, WriteChatStep, TakeStep, NoticeStep;
    }
  }

  lemma HandshakeShape(k: Conn, l: Local, chats: seq<Json.WireMessage>)
    requires Shape(k) && LocalEnabled(k, l, chats, true)
    requires l.ReadHello? || l.Acknowledge? || l.ReadName? || l.GiveUp? || l.Reject? || l.Notice?
    requires LocalStep(k, l, chats).taken <= |LocalStep(k, l, chats).input|
    ensures Shape(LocalStep(k, l, chats))
  {
    if l.ReadName? {
      NameFields(k);
      TakenGrows(k);
      hide ReadNameStep, Wire.TakeFrame;
    } else {
      AnswerShape(k, l, chats);
    }
  }

  lemma AnswerShape(k: Conn, l: Local, chats: seq<Json.WireMessage>)
    requires Shape(k) && LocalEnabled(k, l, chats, true)
    requires l.ReadHello? || l.Acknowledge? || l.GiveUp? || l.Reject? || l.Notice?
    ensures Shape(LocalStep(k, l, chats))
  {
    hide Wire.TakeFrame, ReadNameStep, FetchStep, NextChatStep, WriteChatStep, TakeStep, NoticeStep;
    if l.Notice? { NoticeFields(k); }
  }

  lemma TakenGrows(k: Conn)
    requires k.taken <= |k.input|
    ensures ReadNameStep(k).taken >= k.taken
  {
    hide Wire.TakeFrame, Wire.DecodeMessage;
  }

  lemma TakeShape(k: Conn, n: nat)
    requires Shape(k) && 0 < n <= |k.unsent|
    ensures Shape(TakeStep(k, n))
  {
    var k' := TakeStep(k, n);
    assert k.unsent == k.unsent[..n] + k.unsent[n..];
    assert k'.output + k'.unsent == k.output + k.unsent;
    if k.phase == Rejecting {
      assert (k'.output + k'.unsent)[0] == k'.output[0] == 1;
    } else {
      assert k'.output[0] == k.output[0];
    }
  }

  lemma ConnShape(s: State, a: Action, c: nat)
    requires Valid(s) && Enabled(s, a) && Target(a) == Some(c) && Shape(s.conns[c])
    ensures Shape(ConnAfter(s, a, s.conns[c]))
  {
    hide LocalStep, LocalEnabled, Locked, NoticeBytes, Nonce, Id, Info;
    if a.Do? { LocalShape(s.conns[c], a.step, s.chats, s.signalled); }
  }

  lemma ShapesStep(s: State, a: Action)
    requires Valid(s) && Enabled(s, a) && Shapes(s)
    ensures Shapes(Apply(s, a))
  {
    hide Shape, ConnAfter, SharedAfter;
    if Target(a).Some? { ConnShape(s, a, Target(a).value); }
    FreshShape();
  }

  lemma FreshShape()
    ensures Shape(FRESH_CONN)
  {
  }

  /** In every reachable state each connection's fields fit its phase. */
  lemma {:induction false} ShapesHold(host: string, run: seq<Action>)
    requires Exec(host, run).Some?
    ensures Shapes(Exec(host, run).value)
  {
    hide Shape, Apply, Enabled;
    if run != [] {
      ExecLast(host, run);
      ShapesHold(host, run[..|run| - 1]);
      ShapesStep(Exec(host, run[..|run| - 1]).value, run[|run| - 1]);
    }
  }

  lemma LocalKeeps(k: Conn, l: Local, chats: seq<Json.WireMessage>, signalled: bool)
    requires k.taken <= |k.input| && LocalEnabled(k, l, chats, signalled)
    ensures k.input <= LocalStep(k, l, chats).input && LocalStep(k, l, chats).burned == k.burned
  {
    hide Wire.TakeFrame;
    StepFields(k, l, chats);
    hide ReadNameStep, FetchStep, NextChatStep, WriteChatStep, TakeStep, NoticeStep;
  }

  /** A step leaves what the peer sent in place, and only the nonce check marks a nonce used. */
  lemma ConnKeeps(s: State, a: Action, c: nat)
    requires Valid(s) && Enabled(s, a) && Target(a) == Some(c)
    ensures s.conns[c].input <= ConnAfter(s, a, s.conns[c]).input
    ensures !a.CheckNonce? ==> ConnAfter(s, a, s.conns[c]).burned == s.conns[c].burned
    ensures s.conns[c].burned ==> ConnAfter(s, a, s.conns[c]).burned
  {
    hide LocalStep, LocalEnabled, Locked;
    if a.Do? { LocalKeeps(s.conns[c], a.step, s.chats, s.signalled); }
  }

  // ---- nonces ----

  /** The connection's nonce passed the check. */
  predicate Spent(k: Conn) { k.burned && |k.input| >= HELLO }

  function Burned(conns: seq<Conn>): set<Bytes> {
    set i | 0 <= i < |conns| && Spent(conns[i]) :: Nonce(conns[i])
  }

  ghost predicate NoncesKept(s: State) {
    && s.nonces == Burned(s.conns)
    && forall i, j :: 0 <= i < j < |s.conns| && Spent(s.conns[i]) && Spent(s.conns[j])
          ==> Nonce(s.conns[i]) != Nonce(s.conns[j])
  }

  lemma SameSpent(s: State, a: Action, c: nat)
    requires Valid(s) && Enabled(s, a) && Shapes(s) && Target(a) == Some(c) && !a.CheckNonce?
    ensures var k, k' := s.conns[c], ConnAfter(s, a, s.conns[c]);
            Spent(k') == Spent(k) && (Spent(k) ==> Nonce(k') == Nonce(k))
  {
    hide ConnAfter;
    ConnKeeps(s, a, c);
  }

  lemma BurnedSame(conns: seq<Conn>, conns': seq<Conn>)
    requires |conns| <= |conns'|
    requires forall i :: |conns| <= i < |conns'| ==> !Spent(conns'[i])
    requires forall i :: 0 <= i < |conns| ==> Spent(conns'[i]) == Spent(conns[i])
    requires forall i :: 0 <= i < |conns| && Spent(conns[i]) && Spent(conns'[i]) ==> Nonce(conns'[i]) == Nonce(conns[i])
    ensures Burned(conns') == Burned(conns)
  {
    forall n | n in Burned(conns) ensures n in Burned(conns') {
      var i :| 0 <= i < |conns| && Spent(conns[i]) && Nonce(conns[i]) == n;
      assert Spent(conns'[i]) && Nonce(conns'[i]) == n;
    }
  }

  lemma CheckKeepsNonces(s: State, c: nat)
    requires Valid(s) && Shapes(s) && NoncesKept(s) && At(s, c, Checking) && !Locked(s.conns)
    ensures NoncesKept(Apply(s, CheckNonce(c)))
  {
    CheckMoves(s, c);
    hide Apply, ConnAfter, Locked, At;
    var conns' := Apply(s, CheckNonce(c)).conns;
    var n := Nonce(s.conns[c]);
    if n in s.nonces {
      BurnedSame(s.conns, conns');
      assert s.nonces + {n} == s.nonces;
    } else {
      BurnedOneMore(s.conns, c, conns'[c]);
    }
  }

  /** What the nonce check does. */
  lemma CheckMoves(s: State, c: nat)
    requires Valid(s) && Shapes(s) && At(s, c, Checking) && !Locked(s.conns)
    ensures !Spent(s.conns[c])
    ensures var t, n := Apply(s, CheckNonce(c)), Nonce(s.conns[c]);
      && t.nonces == s.nonces + {n} && |t.conns| == |s.conns| && t.conns == s.conns[c := t.conns[c]]
      && t.conns[c].input == s.conns[c].input && Spent(t.conns[c]) == (n !in s.nonces)
  {
    hide Locked;
    assert Shape(s.conns[c]);
  }

  lemma BurnedOneMore(conns: seq<Conn>, c: nat, k: Conn)
    requires c < |conns| && !Spent(conns[c]) && Spent(k)
    ensures Burned(conns[c := k]) == Burned(conns) + {Nonce(k)}
  {
    var conns' := conns[c := k];
    assert Spent(conns'[c]) && Nonce(conns'[c]) == Nonce(k);
    forall m | m in Burned(conns) ensures m in Burned(conns') {
      var i :| 0 <= i < |conns| && Spent(conns[i]) && Nonce(conns[i]) == m;
      assert Spent(conns'[i]) && Nonce(conns'[i]) == m;
    }
  }

  lemma SharedNonces(s: State, a: Action)
    requires Valid(s) && Enabled(s, a)
    ensures s.nonces <= Apply(s, a).nonces
    ensures !a.CheckNonce? ==> Apply(s, a).nonces == s.nonces
  {
    hide ConnsAfter, SharedAfter, LocalEnabled;
    SharedNoncesOnly(s, a);
  }

  lemma SharedNoncesOnly(s: State, a: Action)
    requires Valid(s) && Enabled(s, a)
    ensures s.nonces <= SharedAfter(s, a).nonces
    ensures !a.CheckNonce? ==> SharedAfter(s, a).nonces == s.nonces
  {
    hide LocalEnabled, Id, Info, CanSend, At;
    match a
    case MainText =>
    case MainMessage =>
    case Announce(_) =>
    case Leave(_) =>
    case Launch(_) =>
    case MainClose =>
    case Pass(_) =>
    case _ =>
  }

  lemma NoncesStep(s: State, a: Action)
    requires Valid(s) && Enabled(s, a) && Shapes(s) && NoncesKept(s)
    ensures NoncesKept(Apply(s, a))
  {
    SharedNonces(s, a);
    hide SharedAfter, ConnAfter, LocalEnabled, Shape, Locked;
    if a.CheckNonce? {
      CheckKeepsNonces(s, a.c);
    } else {
      if Target(a).Some? { SameSpent(s, a, Target(a).value); }
      NoncesSame(s, Apply(s, a));
    }
  }

  lemma NoncesSame(s: State, t: State)
    requires NoncesKept(s) && t.nonces == s.nonces && |s.conns| <= |t.conns|
    requires forall i :: |s.conns| <= i < |t.conns| ==> !Spent(t.conns[i])
    requires forall i :: 0 <= i < |s.conns| ==> Spent(t.conns[i]) == Spent(s.conns[i])
    requires forall i :: 0 <= i < |s.conns| && Spent(s.conns[i]) && Spent(t.conns[i]) ==>
               Nonce(t.conns[i]) == Nonce(s.conns[i])
    ensures NoncesKept(t)
  {
    BurnedSame(s.conns, t.conns);
  }

  lemma {:induction false} NoncesHold(host: string, run: seq<Action>)
    requires Exec(host, run).Some?
    ensures NoncesKept(Exec(host, run).value)
  {
    hide Shape, Apply, Enabled;
    if run != [] {
      ExecLast(host, run);
      ShapesHold(host, run[..|run| - 1]);
      NoncesHold(host, run[..|run| - 1]);
      NoncesStep(Exec(host, run[..|run| - 1]).value, run[|run| - 1]);
    }
  }

  /** Over all interleavings, no two connections are ever answered with the accept byte for the same
      nonce. */
  lemma SingleUse(host: string, run: seq<Action>, i: nat, j: nat)
    requires Exec(host, run).Some? && i < j < |Exec(host, run).value.conns|
    requires Accepted(Exec(host, run).value.conns[i]) && Accepted(Exec(host, run).value.conns[j])
    ensures |Exec(host, run).value.conns[i].input| >= HELLO && |Exec(host, run).value.conns[j].input| >= HELLO
    ensures Nonce(Exec(host, run).value.conns[i]) != Nonce(Exec(host, run).value.conns[j])
  {
    ShapesHold(host, run);
    NoncesHold(host, run);
    var s := Exec(host, run).value;
    assert Shape(s.conns[i]) && Shape(s.conns[j]);
    assert Spent(s.conns[i]) && Spent(s.conns[j]);
  }

  /** Whatever happens later, also a failing read of the name, a used nonce stays used. */
  lemma {:induction false} NoncesStay(host: string, run: seq<Action>, more: seq<Action>)
    requires Exec(host, run).Some? && Exec(host, run + more).Some?
    ensures Exec(host, run).value.nonces <= Exec(host, run + more).value.nonces
  {
    hide Enabled, Apply;
    if more == [] {
      assert run + more == run;
    } else {
      var before := run + more[..|more| - 1];
      assert (run + more)[..|run + more| - 1] == before;
      ExecLast(host, run + more);
      NoncesStay(host, run, more[..|more| - 1]);
      SharedNonces(Exec(host, before).value, more[|more| - 1]);
    }
  }
}
