/** What the listener gets of a connection's chats: those tried, less exactly the refused ones, and under
    an id nobody else speaks with. */
module RoomReports {
  import opened Basics
  import opened Json
  import opened Room
  import opened RoomNonces
  import opened RoomOrder
  import opened RoomPeers
  import opened RoomFifo
  import Codecs

  // ---- the tried chats and their fates ----

  /** The chats of connection `c` that went into the event channel. */
  function Heard(c: nat, log: seq<Attempt>): seq<(string, string)> {
    if log == [] then []
    else
      var a := Last(log);
      Heard(c, Front(log)) + (if MessageOf(a, c) && a.accepted then [(a.event.name, a.event.text)] else [])
  }

  /** For each chat of `c` that was tried, whether it went in. */
  function Luck(c: nat, log: seq<Attempt>): seq<bool> {
    if log == [] then [] else Luck(c, Front(log)) + (if MessageOf(Last(log), c) then [Last(log).accepted] else [])
  }

  /** The chosen elements, in order. */
  function Chosen<T>(xs: seq<T>, luck: seq<bool>): seq<T>
    requires |xs| == |luck|
  {
    if xs == [] then []
    else Chosen(xs[..|xs| - 1], luck[..|xs| - 1]) + (if luck[|xs| - 1] then [xs[|xs| - 1]] else [])
  }

  lemma ChosenSnoc<T>(xs: seq<T>, luck: seq<bool>, x: T, b: bool)
    requires |xs| == |luck|
    ensures Chosen(xs + [x], luck + [b]) == Chosen(xs, luck) + (if b then [x] else [])
  {
    assert (xs + [x])[..|xs|] == xs && (luck + [b])[..|xs|] == luck;
  }

  lemma {:induction false} HeardIsChosen(c: nat, log: seq<Attempt>)
    ensures |Spoken(c, log)| == |Luck(c, log)| && Heard(c, log) == Chosen(Spoken(c, log), Luck(c, log))
  {
    if log != [] {
      HeardIsChosen(c, Front(log));
      hide Chosen;
      var a := Last(log);
      assert Heard(c, Front(log)) + [] == Heard(c, Front(log));
      assert Spoken(c, Front(log)) + [] == Spoken(c, Front(log)) && Luck(c, Front(log)) + [] == Luck(c, Front(log));
      if MessageOf(a, c) {
        ChosenSnoc(Spoken(c, Front(log)), Luck(c, Front(log)), (a.event.name, a.event.text), a.accepted);
      }
    }
  }

  /** The attempt a chat without luck stands for. */
  lemma {:induction false} Unlucky(c: nat, log: seq<Attempt>, i: nat) returns (j: nat)
    requires i < |Luck(c, log)| && !Luck(c, log)[i]
    ensures j < |log| && MessageOf(log[j], c) && !log[j].accepted && |Luck(c, log[..j])| == i
  {
    if i < |Luck(c, Front(log))| {
      j := Unlucky(c, Front(log), i);
      assert Front(log)[..j] == log[..j];
    } else {
      j := |log| - 1;
    }
  }

  /** The attempt `j` is the one of the chat number `i` of connection `c`, and was refused with cause. */
  ghost predicate Refused(s: State, c: nat, i: nat, j: nat) {
    && j < |s.attempts| && MessageOf(s.attempts[j], c) && |Luck(c, s.attempts[..j])| == i
    && !s.attempts[j].accepted && Justified(s, j)
  }

  /** The chats of a connection that went into the channel are the tried ones without the refused, and
      each of those was itself refused, at 256 waiting events or a listener gone for good. */
  lemma RefusedOnly(host: string, run: seq<Action>, c: nat)
    requires Exec(host, run).Some?
    ensures var log := Exec(host, run).value.attempts;
      && |Spoken(c, log)| == |Luck(c, log)| && Heard(c, log) == Chosen(Spoken(c, log), Luck(c, log))
      && forall i :: 0 <= i < |Luck(c, log)| && !Luck(c, log)[i] ==> exists j :: Refused(Exec(host, run).value, c, i, j)
  {
    Channel(host, run);
    var s := Exec(host, run).value;
    hide Exec, Justified, Luck, Spoken, Heard, Chosen;
    HeardIsChosen(c, s.attempts);
    forall i | 0 <= i < |Luck(c, s.attempts)| && !Luck(c, s.attempts)[i]
      ensures exists j :: Refused(s, c, i, j)
    {
      var j := Unlucky(c, s.attempts, i);
      assert Justified(s, j);
      assert Refused(s, c, i, j);
    }
  }

  // ---- by id ----

  const HUB := "[hub]"

  /** What the events have `id` say. */
  function SaidBy(id: string, events: seq<Event>): seq<(string, string)> {
    if events == [] then []
    else
      var e := events[|events| - 1];
      SaidBy(id, events[..|events| - 1]) + (if e.Message? && e.from == id then [(e.name, e.text)] else [])
  }

  lemma SaidByNothing(id: string)
    ensures SaidBy(id, []) == []
  {
  }

  lemma SaidBySnoc(id: string, events: seq<Event>, e: Event)
    ensures SaidBy(id, events + [e])
         == SaidBy(id, events) + (if e.Message? && e.from == id then [(e.name, e.text)] else [])
  {
    assert (events + [e])[..|events|] == events;
  }

  lemma {:induction false} BootSaysNothing(id: string, boot: seq<Event>, events: seq<Event>)
    requires forall i :: 0 <= i < |boot| ==> boot[i].BootstrapProgress?
    ensures SaidBy(id, boot + events) == SaidBy(id, events)
  {
    if events != [] {
      var n := |events| - 1;
      BootSaysNothing(id, boot, events[..n]);
      assert boot + events == boot + events[..n] + [events[n]];
      SaidBySnoc(id, boot + events[..n], events[n]);
    } else if boot != [] {
      var n := |boot| - 1;
      BootSaysNothing(id, boot[..n], []);
      assert boot + [] == boot[..n] + [] + [boot[n]];
      SaidBySnoc(id, boot[..n] + [], boot[n]);
    } else {
      assert boot + events == events;
    }
  }

  /** No peer's id is the host's: its brackets are no Base58 digits. */
  lemma HubIsNoPeer(k: Conn)
    requires |k.input| >= HELLO
    ensures Id(k) != HUB
  {
    Codecs.Base58RoundTrip(Disc(k));
    HubIsNoBase58();
    hide Codecs.FromBase58, Codecs.ToBase58;
  }

  lemma HubIsNoBase58()
    ensures Codecs.FromBase58(HUB) == None
  {
    hide Codecs.FromBase58;
    Codecs.NotBase58(HUB, 0);
  }

  /** A message is signed by the id of the connection it came from, which has passed the nonce check. */
  predicate SignedBy(conns: seq<Conn>, c: nat, from: string) {
    c < |conns| && Spent(conns[c]) && from == Id(conns[c])
  }

  predicate AttemptSigned(conns: seq<Conn>, a: Attempt) {
    a.event.Message? ==>
      match a.origin
      case Host => a.event.from == HUB
      case Peer(c) => SignedBy(conns, c, a.event.from)
  }

  ghost predicate AllSigned(s: State) {
    && (forall i :: 0 <= i < |s.attempts| ==> AttemptSigned(s.conns, s.attempts[i]))
    && (forall i :: 0 <= i < |s.msgs| ==> SignedBy(s.conns, s.msgs[i].conn, s.msgs[i].from))
  }

  lemma StaysSigned(s: State, a: Action, c: nat, from: string)
    requires Valid(s) && Enabled(s, a) && SignedBy(s.conns, c, from)
    ensures SignedBy(Apply(s, a).conns, c, from)
  {
    hide ConnAfter, SharedAfter, LocalEnabled, Codecs.ToBase58;
    if Target(a) == Some(c) {
      ConnKeeps(s, a, c);
      assert Disc(ConnAfter(s, a, s.conns[c])) == Disc(s.conns[c]);
    }
  }

  lemma SentSigned(s: State, a: Action)
    requires Valid(s) && Enabled(s, a) && AllSigned(s) && Sent(s, a).Some?
    ensures AttemptSigned(s.conns, Logged(s, a))
  {
    hide LocalEnabled, LocalStep, Id, Info, SignedBy;
  }

  lemma PasserSpent(s: State, c: nat)
    requires Shapes(s) && c < |s.conns| && s.conns[c].reader.Passing?
    ensures Spent(s.conns[c])
  {
    assert Shape(s.conns[c]);
  }

  lemma AttemptsSigned(s: State, a: Action, i: nat)
    requires Valid(s) && Enabled(s, a) && AllSigned(s) && i < |Apply(s, a).attempts|
    ensures AttemptSigned(Apply(s, a).conns, Apply(s, a).attempts[i])
  {
    LogGrows(s, a);
    if Sent(s, a).Some? { SentSigned(s, a); }
    hide Apply, LocalEnabled, Sent, Logged, Id, Info, Spent, SignedBy;
    var e := Apply(s, a).attempts[i];
    assert AttemptSigned(s.conns, e);
    if e.event.Message? && e.origin.Peer? { StaysSigned(s, a, e.origin.conn, e.event.from); }
  }

  lemma MessagesSigned(s: State, a: Action, i: nat)
    requires Valid(s) && Enabled(s, a) && Shapes(s) && AllSigned(s) && i < |Apply(s, a).msgs|
    ensures SignedBy(Apply(s, a).conns, Apply(s, a).msgs[i].conn, Apply(s, a).msgs[i].from)
  {
    MainMoves(s, a);
    if a.Pass? { PasserSpent(s, a.c); }
    hide Apply, LocalEnabled, Id, Info, Shape, Spent, SignedBy;
    var m := Apply(s, a).msgs[i];
    assert SignedBy(s.conns, m.conn, m.from) by {
      if a.Pass? && i == |s.msgs| { PassedSigned(s, a.c); }
      else if a.MainMessage? { assert m == s.msgs[i + 1]; }
      else { assert m == s.msgs[i]; }
    }
    StaysSigned(s, a, m.conn, m.from);
  }

  lemma SignedStep(s: State, a: Action)
    requires Valid(s) && Enabled(s, a) && Shapes(s) && AllSigned(s)
    ensures AllSigned(Apply(s, a))
  {
    hide Apply, Enabled, AttemptSigned, SignedBy, Shape;
    var t := Apply(s, a);
    forall i | 0 <= i < |t.attempts| ensures AttemptSigned(t.conns, t.attempts[i]) {
      AttemptsSigned(s, a, i);
    }
    forall i | 0 <= i < |t.msgs| ensures SignedBy(t.conns, t.msgs[i].conn, t.msgs[i].from) {
      MessagesSigned(s, a, i);
    }
  }

  lemma PassedSigned(s: State, c: nat)
    requires c < |s.conns| && Spent(s.conns[c])
    ensures SignedBy(s.conns, c, Id(s.conns[c]))
  {
  }

  lemma {:induction false} SignedHolds(host: string, run: seq<Action>)
    requires Exec(host, run).Some?
    ensures AllSigned(Exec(host, run).value)
  {
    hide Shape, Apply, Enabled, AttemptSigned, SignedBy;
    if run != [] {
      ExecLast(host, run);
      ShapesHold(host, run[..|run| - 1]);
      SignedHolds(host, run[..|run| - 1]);
      SignedStep(Exec(host, run[..|run| - 1]).value, run[|run| - 1]);
    }
  }

  lemma {:induction false} SaidByIsHeard(conns: seq<Conn>, c: nat, log: seq<Attempt>)
    requires c < |conns| && Spent(conns[c]) && Distinct(conns)
    requires forall i :: 0 <= i < |log| ==> AttemptSigned(conns, log[i])
    ensures SaidBy(Id(conns[c]), Delivered(log)) == Heard(c, log)
  {
    if log != [] {
      hide AttemptSigned, Distinct, Spent, Id, SaidBy;
      var a, before := Last(log), Delivered(Front(log));
      SaidByIsHeard(conns, c, Front(log));
      assert AttemptSigned(conns, a);
      SpeaksAs(conns, c, a);
      SaidBySnoc(Id(conns[c]), before, a.event);
      assert before + [] == before && Heard(c, Front(log)) + [] == Heard(c, Front(log));
    } else {
      SaidByNothing(Id(conns[c]));
    }
  }

  /** A message names the id of connection `c` if and only if it came from it. */
  lemma SpeaksAs(conns: seq<Conn>, c: nat, a: Attempt)
    requires c < |conns| && Spent(conns[c]) && Distinct(conns) && AttemptSigned(conns, a)
    ensures a.event.Message? && a.event.from == Id(conns[c]) <==> MessageOf(a, c)
  {
    hide Codecs.ToBase58, Distinct;
    if a.event.Message? {
      match a.origin
      case Host => HubIsNoPeer(conns[c]);
      case Peer(d) => if d != c { DistinctIds(conns, d, c); }
    }
  }

  /** With distinct discriminators, what the listener has got and will get under a peer's id is exactly
      what went into the channel of that connection: nobody else speaks with it, not even the host. */
  lemma SpeaksForItself(host: string, run: seq<Action>, c: nat)
    requires Exec(host, run).Some? && c < |Exec(host, run).value.conns|
    requires Spent(Exec(host, run).value.conns[c]) && Distinct(Exec(host, run).value.conns)
    ensures var s := Exec(host, run).value;
      SaidBy(Id(s.conns[c]), s.consumed + s.queue) == Heard(c, s.attempts)
  {
    Channel(host, run);
    SignedHolds(host, run);
    var s := Exec(host, run).value;
    hide Exec, Delivered, Heard, SaidBy, AttemptSigned, Distinct, Id;
    SaidByIsHeard(s.conns, c, s.attempts);
    BootSaysNothing(Id(s.conns[c]), s.boot, Delivered(s.attempts));
  }
}
