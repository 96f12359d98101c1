/** The peer map: its exact contents in every reachable state, and its draining after shutdown. */
module RoomPeers {
  import opened Basics
  import opened Room
  import opened RoomNonces
  import Codecs
  import Json

  /** Between inserting itself into the map and removing itself. */
  predicate Registered(k: Conn) { 5 <= Stage(k.phase) <= 10 && |k.input| >= HELLO }

  function RegisteredIds(conns: seq<Conn>): set<string> {
    set i | 0 <= i < |conns| && Registered(conns[i]) :: Id(conns[i])
  }

  /** No two peers that passed the nonce check have sent the same discriminator. */
  ghost predicate Distinct(conns: seq<Conn>) {
    forall i, j :: 0 <= i < j < |conns| && Spent(conns[i]) && Spent(conns[j]) ==> Disc(conns[i]) != Disc(conns[j])
  }

  lemma DistinctIds(conns: seq<Conn>, i: nat, j: nat)
    requires Distinct(conns) && i < |conns| && j < |conns| && i != j
    requires Spent(conns[i]) && Spent(conns[j])
    ensures Id(conns[i]) != Id(conns[j])
  {
    if Id(conns[i]) == Id(conns[j]) {
      Codecs.Base58Injective(Disc(conns[i]), Disc(conns[j]));
    }
  }

  /** A step never takes distinctness back into the past. */
  lemma DistinctBefore(s: State, a: Action)
    requires Valid(s) && Enabled(s, a) && Distinct(Apply(s, a).conns)
    ensures Distinct(s.conns)
  {
    hide ConnAfter, SharedAfter, LocalEnabled;
    if Target(a).Some? { ConnKeeps(s, a, Target(a).value); }
    var conns' := Apply(s, a).conns;
    forall i, j | 0 <= i < j < |s.conns| && Spent(s.conns[i]) && Spent(s.conns[j])
      ensures Disc(s.conns[i]) != Disc(s.conns[j])
    {
      assert Spent(conns'[i]) && Spent(conns'[j]);
      assert Disc(conns'[i]) == Disc(s.conns[i]) && Disc(conns'[j]) == Disc(s.conns[j]);
    }
  }

  /** Which phase changes a step makes, and that a registered connection keeps its name. */
  lemma ConnRegisters(s: State, a: Action, c: nat)
    requires Valid(s) && Enabled(s, a) && Target(a) == Some(c) && Shape(s.conns[c])
    ensures var k, k' := s.conns[c], ConnAfter(s, a, s.conns[c]);
      && (a.Insert? ==> !Registered(k) && Registered(k') && Info(k') == Info(k))
      && (a.Remove? ==> Registered(k) && !Registered(k') && Info(k') == Info(k))
      && (!a.Insert? && !a.Remove? ==> Registered(k') == Registered(k))
      && (Registered(k) && Registered(k') ==> Info(k') == Info(k))
  {
    hide LocalStep, LocalEnabled, Codecs.ToBase58, Locked, NoticeBytes;
    ConnKeeps(s, a, c);
    var k, k' := s.conns[c], ConnAfter(s, a, s.conns[c]);
    assert |k.input| >= HELLO ==> Disc(k') == Disc(k);
    if a.Do? { LocalRegisters(k, a.step, s.chats, s.signalled); }
  }

  lemma LocalRegisters(k: Conn, l: Local, chats: seq<Json.WireMessage>, signalled: bool)
    requires Shape(k) && LocalEnabled(k, l, chats, signalled)
    ensures Registered(LocalStep(k, l, chats)) == Registered(k)
    ensures Registered(k) ==> LocalStep(k, l, chats).name == k.name
  {
    LocalMoves(k, l, chats, signalled);
    LocalKeeps(k, l, chats, signalled);
    hide LocalStep, LocalEnabled;
  }

  lemma PeersInserted(s: State, a: Action)
    requires Valid(s) && Enabled(s, a) && a.Insert?
    ensures Apply(s, a).peers == s.peers[Id(s.conns[a.c]) := Info(s.conns[a.c])]
  {
    hide ConnsAfter, Codecs.ToBase58;
  }

  lemma PeersRemoved(s: State, a: Action)
    requires Valid(s) && Enabled(s, a) && a.Remove?
    ensures Apply(s, a).peers == s.peers - {Id(s.conns[a.c])}
  {
    hide ConnsAfter, Codecs.ToBase58;
  }

  lemma PeersUntouched(s: State, a: Action)
    requires Valid(s) && Enabled(s, a) && !a.Insert? && !a.Remove?
    ensures Apply(s, a).peers == s.peers
  {
    hide ConnsAfter, SharedAfter, LocalEnabled;
    SharedLeavesPeers(s, a);
  }

  lemma SharedLeavesPeers(s: State, a: Action)
    requires Valid(s) && Enabled(s, a) && !a.Insert? && !a.Remove?
    ensures SharedAfter(s, a).peers == s.peers
  {
    if Target(a).Some? { HandlersLeavePeers(s, a); } else { HostLeavesPeers(s, a); }
    hide SharedAfter;
  }

  lemma HandlersLeavePeers(s: State, a: Action)
    requires Valid(s) && Enabled(s, a) && !a.Insert? && !a.Remove? && Target(a).Some?
    ensures SharedAfter(s, a).peers == s.peers
  {
    hide LocalEnabled, Id, Info, Nonce, Locked, CanSend, MainTextStep, MainMessageStep, ProgressStep;
    match a
    case Announce(_) =>
    case Leave(_) =>
    case Pass(_) =>
    case _ =>
  }

  lemma HostLeavesPeers(s: State, a: Action)
    requires Valid(s) && Enabled(s, a) && Target(a).None?
    ensures SharedAfter(s, a).peers == s.peers
  {
    hide LocalEnabled, Id, Info, Nonce, Locked, At, PassStep;
    match a
    case MainText =>
    case MainMessage =>
    case Launch(_) =>
    case MainClose =>
    case Progress(_) =>
    case _ =>
  }

  lemma SharedPeers(s: State, a: Action)
    requires Valid(s) && Enabled(s, a)
    ensures a.Insert? ==> Apply(s, a).peers == s.peers[Id(s.conns[a.c]) := Info(s.conns[a.c])]
    ensures a.Remove? ==> Apply(s, a).peers == s.peers - {Id(s.conns[a.c])}
    ensures !a.Insert? && !a.Remove? ==> Apply(s, a).peers == s.peers
  {
    hide Apply, LocalEnabled, Id, Info;
    if a.Insert? { PeersInserted(s, a); }
    else if a.Remove? { PeersRemoved(s, a); }
    else { PeersUntouched(s, a); }
  }

  /** Every entry of the map belongs to a registered connection, whatever the discriminators. */
  ghost predicate PeersCovered(s: State) { s.peers.Keys <= RegisteredIds(s.conns) }

  /** With distinct discriminators the entries are exactly the registered connections and carry their
      names. */
  ghost predicate PeersExact(s: State) {
    && s.peers.Keys == RegisteredIds(s.conns)
    && forall i :: 0 <= i < |s.conns| && Registered(s.conns[i]) ==> Mapped(s.peers, s.conns[i])
  }

  lemma IdsGrow(conns: seq<Conn>, conns': seq<Conn>)
    requires |conns| <= |conns'|
    requires forall i :: 0 <= i < |conns| && Registered(conns[i]) ==>
               Registered(conns'[i]) && Id(conns'[i]) == Id(conns[i])
    ensures RegisteredIds(conns) <= RegisteredIds(conns')
  {
    forall x | x in RegisteredIds(conns) ensures x in RegisteredIds(conns') {
      var i :| 0 <= i < |conns| && Registered(conns[i]) && Id(conns[i]) == x;
      assert Registered(conns'[i]) && Id(conns'[i]) == x;
    }
  }

  lemma CoveredStep(s: State, a: Action)
    requires Valid(s) && Enabled(s, a) && Shapes(s) && PeersCovered(s)
    ensures PeersCovered(Apply(s, a))
  {
    hide ConnAfter, SharedAfter, LocalEnabled, Shape, Codecs.ToBase58;
    var conns' := Apply(s, a).conns;
    SharedPeers(s, a);
    if Target(a).Some? { ConnRegisters(s, a, Target(a).value); }
    if a.Insert? {
      IdsGrow(s.conns, conns');
      assert Registered(conns'[a.c]) && Id(conns'[a.c]) == Id(s.conns[a.c]);
    } else if a.Remove? {
      forall x | x in s.peers - {Id(s.conns[a.c])} ensures x in RegisteredIds(conns') {
        assert x in RegisteredIds(s.conns);
        var i :| 0 <= i < |s.conns| && Registered(s.conns[i]) && Id(s.conns[i]) == x;
        assert conns'[i] == s.conns[i];
      }
    } else {
      IdsGrow(s.conns, conns');
    }
  }

  lemma RegisteredSpent(s: State, c: nat)
    requires Shapes(s) && c < |s.conns| && Stage(s.conns[c].phase) >= 2
    ensures Spent(s.conns[c])
  {
    assert Shape(s.conns[c]);
  }

  /** Whoever is registered is in the map under its id and with its name. */
  predicate Mapped(peers: map<string, PeerInfo>, k: Conn)
    requires |k.input| >= HELLO
  {
    Id(k) in peers && peers[Id(k)] == Info(k)
  }

  lemma OtherMapped(s: State, a: Action, i: nat)
    requires Valid(s) && Enabled(s, a) && Shapes(s) && Distinct(s.conns) && i < |s.conns| && Target(a) != Some(i)
    requires Registered(s.conns[i]) && Mapped(s.peers, s.conns[i])
    ensures Mapped(Apply(s, a).peers, s.conns[i])
  {
    hide Apply, LocalEnabled, Id, Info, Shape, Distinct, Spent, Registered, Codecs.ToBase58;
    SharedPeers(s, a);
    if a.Insert? || a.Remove? { TwoRegistered(s, a, i); }
  }

  /** A handler entering or leaving the map does so under an id no other one is registered with. */
  lemma TwoRegistered(s: State, a: Action, i: nat)
    requires Valid(s) && Enabled(s, a) && Shapes(s) && Distinct(s.conns) && i < |s.conns| && Target(a) != Some(i)
    requires Registered(s.conns[i]) && (a.Insert? || a.Remove?)
    ensures Id(s.conns[i]) != Id(s.conns[a.c])
  {
    hide LocalEnabled, Id, Shape, Distinct, Spent;
    RegisteredSpent(s, i);
    RegisteredSpent(s, a.c);
    DistinctIds(s.conns, i, a.c);
  }

  lemma OwnMapped(s: State, a: Action, i: nat)
    requires Valid(s) && Enabled(s, a) && Shapes(s) && i < |s.conns| && Target(a) == Some(i)
    requires Registered(s.conns[i]) ==> Mapped(s.peers, s.conns[i])
    requires Registered(ConnAfter(s, a, s.conns[i]))
    ensures Mapped(Apply(s, a).peers, ConnAfter(s, a, s.conns[i]))
  {
    SharedPeers(s, a);
    ConnRegisters(s, a, i);
    hide Apply, ConnAfter, LocalEnabled, Id, Shape;
  }

  lemma ExactStep(s: State, a: Action)
    requires Valid(s) && Enabled(s, a) && Shapes(s) && PeersExact(s) && Distinct(s.conns)
    ensures PeersExact(Apply(s, a))
  {
    hide ConnAfter, SharedAfter, LocalEnabled, Shape, Id, Info, Distinct;
    CoveredStep(s, a);
    var s' := Apply(s, a);
    forall i | 0 <= i < |s'.conns| && Registered(s'.conns[i]) ensures Mapped(s'.peers, s'.conns[i]) {
      if Target(a) == Some(i) {
        OwnMapped(s, a, i);
      } else {
        assert i < |s.conns| && s'.conns[i] == s.conns[i];
        OtherMapped(s, a, i);
      }
    }
  }

  /** The map's keys are ids of registered connections; with distinct discriminators they are exactly
      those ids, each with its connection's name. */
  lemma {:induction false} PeerMap(host: string, run: seq<Action>)
    requires Exec(host, run).Some?
    ensures PeersCovered(Exec(host, run).value)
    ensures Distinct(Exec(host, run).value.conns) ==> PeersExact(Exec(host, run).value)
  {
    hide Shape, Apply, Enabled;
    if run == [] {
    } else {
      ExecLast(host, run);
      var s, a := Exec(host, run[..|run| - 1]).value, run[|run| - 1];
      PeerMap(host, run[..|run| - 1]);
      ShapesHold(host, run[..|run| - 1]);
      CoveredStep(s, a);
      if Distinct(Apply(s, a).conns) {
        DistinctBefore(s, a);
        ExactStep(s, a);
      }
    }
  }

  // ---- whatever the discriminators ----

  /** What the last connection with this id to touch the map did: put in its entry, or take it out. */
  function LastTouch(host: string, run: seq<Action>, id: string): Option<PeerInfo>
    requires Exec(host, run).Some?
  {
    if run == [] then None
    else
      ExecLast(host, run);
      var before, a := run[..|run| - 1], run[|run| - 1];
      var s := Exec(host, before).value;
      if a.Insert? && Id(s.conns[a.c]) == id then Some(Info(s.conns[a.c]))
      else if a.Remove? && Id(s.conns[a.c]) == id then None
      else LastTouch(host, before, id)
  }

  lemma TouchStep(s: State, a: Action, id: string)
    requires Valid(s) && Enabled(s, a)
    ensures var t := Apply(s, a);
      if a.Insert? && Id(s.conns[a.c]) == id then id in t.peers && t.peers[id] == Info(s.conns[a.c])
      else if a.Remove? && Id(s.conns[a.c]) == id then id !in t.peers
      else (id in t.peers <==> id in s.peers) && (id in s.peers ==> t.peers[id] == s.peers[id])
  {
    SharedPeers(s, a);
    hide Apply, LocalEnabled, Id, Info;
  }

  /** Also with equal discriminators: the map holds an id if and only if the last connection with that id
      to touch it put its entry in, and then holds that entry. */
  lemma {:induction false} LastTouchCounts(host: string, run: seq<Action>, id: string)
    requires Exec(host, run).Some?
    ensures var peers := Exec(host, run).value.peers;
      LastTouch(host, run, id) == if id in peers then Some(peers[id]) else None
  {
    hide Enabled, Apply, Id, Info;
    if run != [] {
      ExecLast(host, run);
      LastTouchCounts(host, run[..|run| - 1], id);
      TouchStep(Exec(host, run[..|run| - 1]).value, run[|run| - 1], id);
    }
  }
}
