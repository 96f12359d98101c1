/** After shutdown: which handlers can go on without their peers' help, how many steps they have left, and
    the empty peer map at the end. */
module RoomDrain {
  import opened Basics
  import opened Room
  import opened RoomNonces
  import opened RoomOrder
  import opened RoomPeers
  import Json
  import Wire
  import Codecs

  /** Steps a handler still has to take at most; zero once it has finished or failed. */
  function LeftAt(p: Phase): nat {
    if p == Failed then 0 else if p == Rejecting then 1 else 12 - Stage(p)
  }

  function Left(k: Conn): nat { LeftAt(k.phase) }

  function Rank(conns: seq<Conn>): nat {
    if conns == [] then 0 else Rank(conns[..|conns| - 1]) + Left(conns[|conns| - 1])
  }

  /** A step of some connection's handler task, as opposed to its reader, its writer or the peer. */
  predicate HandlerStep(a: Action) {
    match a
    case Do(_, l) =>
      (match l
       case Receive(_) => false
       case Take(_) => false
       case Break => false
       case Fetch => false
       case ReaderEnds => false
       case NextChat => false
       case WriteChat(_, _) => false
       case WriterEnds => false
       case _ => true)
    case CheckNonce(_) => true
    case Insert(_) => true
    case Announce(_) => true
    case Remove(_) => true
    case Leave(_) => true
    case _ => false
  }

  lemma {:induction false} RankOf(conns: seq<Conn>, c: nat, k: Conn)
    requires c < |conns|
    ensures Rank(conns[c := k]) == Rank(conns) - Left(conns[c]) + Left(k)
  {
    var n := |conns| - 1;
    if c == n {
      assert conns[c := k][..n] == conns[..n];
    } else {
      assert conns[c := k][..n] == conns[..n][c := k];
      RankOf(conns[..n], c, k);
    }
  }

  lemma LeftDrops(s: State, a: Action, c: nat)
    requires Valid(s) && Enabled(s, a) && Target(a) == Some(c)
    ensures HandlerStep(a) ==> Left(ConnAfter(s, a, s.conns[c])) < Left(s.conns[c])
    ensures !HandlerStep(a) ==> Left(ConnAfter(s, a, s.conns[c])) == Left(s.conns[c])
  {
    hide LocalStep, LocalEnabled, Locked, Nonce;
    if a.Do? { LocalLeft(s.conns[c], a.step, s.chats, s.signalled); }
  }

  lemma LocalLeft(k: Conn, l: Local, chats: seq<Json.WireMessage>, signalled: bool)
    requires k.taken <= |k.input| && LocalEnabled(k, l, chats, signalled)
    ensures HandlerStep(Do(0, l)) ==> Left(LocalStep(k, l, chats)) < Left(k)
    ensures !HandlerStep(Do(0, l)) ==> Left(LocalStep(k, l, chats)) == Left(k)
  {
    hide LocalStep, Wire.TakeFrame, HandlerStep, LeftAt, Moves;
    LocalMoves(k, l, chats, signalled);
    MovesLower(l, k.phase, LocalStep(k, l, chats).phase);
  }

  lemma MovesLower(l: Local, from: Phase, to: Phase)
    requires Moves(l, from, to)
    ensures HandlerStep(Do(0, l)) ==> LeftAt(to) < LeftAt(from)
    ensures !HandlerStep(Do(0, l)) ==> LeftAt(to) == LeftAt(from)
  {
  }

  /** Once nothing more is accepted, each handler step lowers the rank and nothing raises it. */
  lemma RankDrops(s: State, a: Action)
    requires Valid(s) && Enabled(s, a) && !s.accepting && s.main != Launching
    ensures HandlerStep(a) ==> Rank(Apply(s, a).conns) < Rank(s.conns)
    ensures !HandlerStep(a) ==> Rank(Apply(s, a).conns) == Rank(s.conns)
  {
    hide ConnAfter, SharedAfter, LocalEnabled;
    if Target(a).Some? {
      var c := Target(a).value;
      LeftDrops(s, a, c);
      RankOf(s.conns, c, ConnAfter(s, a, s.conns[c]));
    }
  }

  /** The handler's next step, taking the failing branch wherever a read may not complete. */
  function NextStep(c: nat, k: Conn): Action {
    match k.phase
    case AwaitHello => Do(c, GiveUp)
    case Checking => CheckNonce(c)
    case Accepting => Do(c, Acknowledge(false, false))
    case AwaitName => Do(c, GiveUp)
    case Registering => Insert(c)
    case Announcing => Announce(c)
    case Rejecting => Do(c, Reject)
    case Notifying => Do(c, Notice)
    case Starting => Do(c, StartReader)
    case Subscribing => Do(c, Subscribe)
    case Running => Do(c, Wake)
    case Removing => Remove(c)
    case Leaving => Leave(c)
    case Gone => Signal
    case Failed => Signal
  }

  /** The handler waits in a write without a time limit, for a stream that neither has taken the bytes
      nor is broken. */
  predicate Stuck(k: Conn) { (k.phase == Rejecting || k.phase == Notifying) && k.unsent != [] && !k.broken }

  /** It waits so, or for the nonce lock while another handler keeps it across its reject write. */
  predicate Stalled(s: State, c: nat)
    requires c < |s.conns|
  {
    Stuck(s.conns[c]) || (s.conns[c].phase == Checking && Locked(s.conns))
  }

  ghost predicate HasStep(s: State, c: nat)
    requires Valid(s)
  {
    exists a :: Target(a) == Some(c) && HandlerStep(a) && Enabled(s, a)
  }

  /** After the signal an unfinished handler has an enabled step, also with a silent peer, if and only
      if it is not stalled. */
  lemma HasStepExactly(s: State, c: nat)
    requires Valid(s) && Shapes(s) && s.signalled && c < |s.conns| && Left(s.conns[c]) > 0
    ensures HasStep(s, c) <==> !Stalled(s, c)
  {
    hide Wire.TakeFrame, Wire.DecodeMessage, Wire.EncodeMessage, Codecs.ToBase58, Locked;
    assert Shape(s.conns[c]);
    if !Stalled(s, c) {
      var a := NextStep(c, s.conns[c]);
      assert Target(a) == Some(c) && HandlerStep(a) && Enabled(s, a);
    } else {
      forall a | Target(a) == Some(c) && HandlerStep(a) ensures !Enabled(s, a) {
        StalledWaits(s, c, a);
      }
    }
  }

  lemma StalledWaits(s: State, c: nat, a: Action)
    requires Valid(s) && c < |s.conns| && Stalled(s, c) && Target(a) == Some(c) && HandlerStep(a)
    ensures !Enabled(s, a)
  {
    hide Wire.TakeFrame, Wire.DecodeMessage, Wire.EncodeMessage, Codecs.ToBase58, Locked;
  }

  lemma {:induction false} RankZero(conns: seq<Conn>)
    ensures Rank(conns) == 0 <==> forall c :: 0 <= c < |conns| ==> Left(conns[c]) == 0
  {
    if conns != [] {
      var n := |conns| - 1;
      RankZero(conns[..n]);
      if Rank(conns) == 0 {
        forall c | 0 <= c < |conns| ensures Left(conns[c]) == 0 {
          if c < n { assert conns[..n][c] == conns[c]; }
        }
      }
    }
  }

  /** When the rank is zero the map is empty. */
  lemma Drained(host: string, run: seq<Action>)
    requires Exec(host, run).Some? && Rank(Exec(host, run).value.conns) == 0
    ensures Exec(host, run).value.peers == map[]
  {
    PeerMap(host, run);
    NobodyLeft(Exec(host, run).value);
  }

  lemma NobodyLeft(s: State)
    requires PeersCovered(s) && Rank(s.conns) == 0
    ensures s.peers == map[]
  {
    hide Id;
    RankZero(s.conns);
    assert RegisteredIds(s.conns) == {};
    assert s.peers.Keys == {};
  }

  lemma NoMoreAccepting(s: State, a: Action)
    requires Valid(s) && Enabled(s, a) && !s.accepting && s.main != Launching
    ensures !Apply(s, a).accepting && Apply(s, a).main != Launching
    ensures s.signalled ==> Apply(s, a).signalled
  {
    hide ConnsAfter, SharedAfter, LocalEnabled;
    MainMoves(s, a);
    if s.signalled { SignalStays(s, a); }
  }

  lemma SignalStays(s: State, a: Action)
    requires Valid(s) && Enabled(s, a) && s.signalled
    ensures SharedAfter(s, a).signalled
  {
    hide LocalEnabled, Id, Info, CanSend, At, Locked, Nonce;
    match a
    case MainText =>
    case MainMessage =>
    case Announce(_) =>
    case Leave(_) =>
    case Launch(_) =>
    case MainClose =>
    case Pass(_) =>
    case Progress(_) =>
    case _ =>
  }

  /** How many of the steps are handler steps. */
  function HandlerSteps(run: seq<Action>): nat {
    if run == [] then 0 else HandlerSteps(run[..|run| - 1]) + (if HandlerStep(run[|run| - 1]) then 1 else 0)
  }

  /** After shutdown and the end of accepting, whatever else happens, the handlers take at most `Rank`
      further steps in all, and when they have taken that many the map is empty. */
  lemma {:induction false} DrainBound(host: string, run: seq<Action>, more: seq<Action>)
    requires Exec(host, run).Some? && Exec(host, run + more).Some?
    requires !Exec(host, run).value.accepting && Exec(host, run).value.main != Launching
    ensures !Exec(host, run + more).value.accepting && Exec(host, run + more).value.main != Launching
    ensures HandlerSteps(more) + Rank(Exec(host, run + more).value.conns) <= Rank(Exec(host, run).value.conns)
    ensures HandlerSteps(more) == Rank(Exec(host, run).value.conns) ==> Exec(host, run + more).value.peers == map[]
  {
    hide Enabled, Apply, Rank;
    if more == [] {
      assert run + more == run;
    } else {
      var m, a := more[..|more| - 1], more[|more| - 1];
      assert (run + more)[..|run + more| - 1] == run + m;
      ExecLast(host, run + more);
      DrainBound(host, run, m);
      RankDrops(Exec(host, run + m).value, a);
      NoMoreAccepting(Exec(host, run + m).value, a);
    }
    if HandlerSteps(more) == Rank(Exec(host, run).value.conns) {
      Drained(host, run + more);
    }
  }
}
