/** A peer's message can be reported after its leave: when exactly, and that it happens. */
module RoomLate {
  import opened Basics
  import opened Json
  import opened Room
  import opened RoomNonces
  import opened RoomOrder
  import Wire
  import Codecs

  predicate ChatFrom(i: Item, c: nat) { i.conn == c && i.msg.kind == Chat }

  /** A chat of connection `c` waits in the channel to the main loop. */
  ghost predicate ChatQueued(s: State, c: nat) { exists i :: 0 <= i < |s.msgs| && ChatFrom(s.msgs[i], c) }

  /** Between `s` and the later state `t` a message of connection `c` was reported. */
  ghost predicate Reported(s: State, t: State, c: nat) {
    exists i :: |s.attempts| <= i < |t.attempts| && MessageOf(t.attempts[i], c)
  }

  /** Some way to go on reports a message of connection `c`. */
  ghost predicate CanReport(host: string, run: seq<Action>, c: nat)
    requires Exec(host, run).Some?
  {
    exists more: seq<Action> ::
      Exec(host, run + more).Some? && Reported(Exec(host, run).value, Exec(host, run + more).value, c)
  }

  // ---- what a reader may still bring ----

  /** The frames decode up to some chat. */
  predicate Speaks(frames: seq<Bytes>) {
    frames != [] && Wire.DecodeMessage(frames[0]).Ok?
    && (Wire.DecodeMessage(frames[0]).value.kind == Chat || Speaks(frames[1..]))
  }

  /** The bytes can be continued so that a reader comes to a chat. */
  ghost predicate CanSpeak(unread: Bytes) { exists more: Bytes :: Speaks(Wire.TakeAll(unread + more).frames) }

  /** The connection's reader has a chat in hand, or runs and can still come to one. */
  ghost predicate Promising(k: Conn)
    requires k.taken <= |k.input|
  {
    || (k.reader.Passing? && k.reader.msg.kind == Chat)
    || ((k.reader.Passing? || k.reader.Reading?) && CanSpeak(k.input[k.taken..]))
  }

  lemma CanSpeakBefore(unread: Bytes, bytes: Bytes)
    requires CanSpeak(unread + bytes)
    ensures CanSpeak(unread)
  {
    hide Speaks, Wire.TakeAll;
    var more: Bytes :| Speaks(Wire.TakeAll(unread + bytes + more).frames);
    assert unread + (bytes + more) == unread + bytes + more;
  }

  /** A frame in front that is no chat changes nothing. */
  lemma CanSpeakFrame(f: Bytes, rest: Bytes)
    requires Wire.IsFrame(f) && Wire.DecodeMessage(f).Ok?
    ensures Wire.DecodeMessage(f).value.kind == Chat ==> CanSpeak(f + rest)
    ensures CanSpeak(rest) ==> CanSpeak(f + rest)
  {
    hide Wire.TakeAll, Wire.IsFrame, Wire.DecodeMessage;
    if Wire.DecodeMessage(f).value.kind == Chat {
      Wire.OneFrameThenRest(f, rest);
      assert f + rest + [] == f + rest;
      assert Speaks(Wire.TakeAll(f + rest + []).frames);
    }
    if CanSpeak(rest) {
      var more: Bytes :| Speaks(Wire.TakeAll(rest + more).frames);
      Wire.OneFrameThenRest(f, rest + more);
      assert f + rest + more == f + (rest + more);
      assert Wire.TakeAll(f + rest + more).frames[1..] == Wire.TakeAll(rest + more).frames;
      assert Speaks(Wire.TakeAll(f + rest + more).frames);
    }
  }

  // ---- when nothing more comes ----

  /** The connection has left and the main loop has nothing of it to report, now or later. */
  ghost predicate Silent(s: State, c: nat) {
    && c < |s.conns| && s.conns[c].phase == Gone && s.conns[c].taken <= |s.conns[c].input|
    && (s.main == Ended || (s.main == Serving && !ChatQueued(s, c) && !Promising(s.conns[c])))
  }

  lemma FetchKeepsSilence(k: Conn)
    requires k.taken <= |k.input| && k.reader.Reading? && !Promising(k)
    ensures FetchStep(k).taken <= |k.input| && !Promising(FetchStep(k))
  {
    hide Wire.TakeFrame, Wire.IsFrame, Wire.DecodeMessage, CanSpeak;
    if Unread(k).result.Ok? && Wire.DecodeMessage(Unread(k).result.value).Ok? {
      var f := Unread(k).result.value;
      TakenFits(k);
      Wire.TakenIsFrame(k.input[k.taken..]);
      var rest := k.input[k.taken + |f|..];
      assert k.input[k.taken..] == f + rest;
      CanSpeakFrame(f, rest);
    }
  }

  lemma GoneStays(s: State, a: Action, c: nat)
    requires Valid(s) && Enabled(s, a) && Target(a) == Some(c) && s.conns[c].phase == Gone && !Promising(s.conns[c])
    ensures var k' := ConnAfter(s, a, s.conns[c]);
            k'.phase == Gone && k'.taken <= |k'.input| && !Promising(k')
    ensures a.Pass? ==> s.conns[c].reader.Passing? && s.conns[c].reader.msg.kind != Chat
  {
    PhaseStays(s, a, c);
    hide LocalStep, LocalEnabled, CanSpeak, Locked;
    if a.Do? { LocalSilence(s.conns[c], a.step, s.chats, s.signalled); }
  }

  lemma LocalSilence(k: Conn, l: Local, chats: seq<WireMessage>, signalled: bool)
    requires k.taken <= |k.input| && LocalEnabled(k, l, chats, signalled) && k.phase == Gone && !Promising(k)
    requires LocalStep(k, l, chats).taken <= |LocalStep(k, l, chats).input|
    ensures !Promising(LocalStep(k, l, chats))
  {
    if l.Fetch? {
      FetchKeepsSilence(k);
    } else {
      hide Wire.TakeFrame, CanSpeak;
      StepFields(k, l, chats);
      hide ReadNameStep, FetchStep, NextChatStep, WriteChatStep, TakeStep, NoticeStep;
      if l.Receive? {
        assert (k.input + l.bytes)[k.taken..] == k.input[k.taken..] + l.bytes;
        if CanSpeak(k.input[k.taken..] + l.bytes) { CanSpeakBefore(k.input[k.taken..], l.bytes); }
      }
    }
  }

  /** Even with a reader that may yet speak a connection does not come back. */
  lemma PhaseStays(s: State, a: Action, c: nat)
    requires Valid(s) && Enabled(s, a) && Target(a) == Some(c) && s.conns[c].phase == Gone
    ensures ConnAfter(s, a, s.conns[c]).phase == Gone
    ensures ConnAfter(s, a, s.conns[c]).taken <= |ConnAfter(s, a, s.conns[c]).input|
  {
    hide Wire.TakeFrame, Locked, ReadNameStep, FetchStep, NextChatStep, WriteChatStep, TakeStep, NoticeStep;
    if a.Do? {
      LocalValid(s.conns[c], a.step, s.chats, s.signalled);
      StepFields(s.conns[c], a.step, s.chats);
    }
  }

  lemma SilentStep(s: State, a: Action, c: nat)
    requires Valid(s) && Enabled(s, a) && Silent(s, c)
    ensures Silent(Apply(s, a), c)
    ensures Sent(s, a).Some? ==> !MessageOf(Logged(s, a), c)
  {
    hide ConnAfter, SharedAfter, LocalEnabled, Id, Info, Promising, Locked;
    MainMoves(s, a);
    var s' := Apply(s, a);
    if Target(a) == Some(c) {
      PhaseStays(s, a, c);
      if !Promising(s.conns[c]) { GoneStays(s, a, c); }
    }
    if s.main == Serving {
      forall i | 0 <= i < |s'.msgs| ensures !ChatFrom(s'.msgs[i], c) {
        if a.MainMessage? {
          assert s'.msgs[i] == s.msgs[i + 1];
        } else if i < |s.msgs| {
          assert s'.msgs[i] == s.msgs[i];
        }
      }
    }
  }

  lemma {:induction false} StaysSilent(host: string, run: seq<Action>, more: seq<Action>, c: nat)
    requires Exec(host, run).Some? && Exec(host, run + more).Some? && Silent(Exec(host, run).value, c)
    ensures Silent(Exec(host, run + more).value, c)
    ensures |Exec(host, run).value.attempts| <= |Exec(host, run + more).value.attempts|
    ensures !Reported(Exec(host, run).value, Exec(host, run + more).value, c)
  {
    hide Enabled, Apply, Silent, Sent, Logged;
    if more == [] {
      assert run + more == run;
    } else {
      var m, a := more[..|more| - 1], more[|more| - 1];
      assert (run + more)[..|run + more| - 1] == run + m;
      ExecLast(host, run + more);
      StaysSilent(host, run, m, c);
      SilentStep(Exec(host, run + m).value, a, c);
      LogGrows(Exec(host, run + m).value, a);
    }
  }

  // ---- when something can ----

  function Pumps(n: nat): seq<Action> { if n == 0 then [] else Pumps(n - 1) + [MainMessage] }

  lemma PumpOnce(s: State)
    requires Valid(s) && s.main == Serving && s.msgs != []
    ensures Enabled(s, MainMessage)
    ensures Apply(s, MainMessage).main == Serving && Apply(s, MainMessage).msgs == s.msgs[1..]
    ensures Apply(s, MainMessage).conns == s.conns
    ensures forall c :: ChatFrom(s.msgs[0], c) ==>
              |Apply(s, MainMessage).attempts| == |s.attempts| + 1
              && MessageOf(Apply(s, MainMessage).attempts[|s.attempts|], c)
    ensures |s.attempts| <= |Apply(s, MainMessage).attempts|
  {
  }

  /** Handling `n` queued items makes the next one the first. */
  lemma {:induction false} Pump(host: string, run: seq<Action>, n: nat)
    requires Exec(host, run).Some? && Exec(host, run).value.main == Serving && n <= |Exec(host, run).value.msgs|
    ensures var s, t := Exec(host, run).value, Exec(host, run + Pumps(n));
            t.Some? && t.value.main == Serving && t.value.msgs == s.msgs[n..] && |s.attempts| <= |t.value.attempts|
            && t.value.conns == s.conns
  {
    hide Enabled, Apply;
    if n == 0 {
      assert run + Pumps(0) == run;
    } else {
      Pump(host, run, n - 1);
      PumpOnce(Exec(host, run + Pumps(n - 1)).value);
      ExecExtend(host, run + Pumps(n - 1), MainMessage);
      assert run + Pumps(n) == run + Pumps(n - 1) + [MainMessage];
    }
  }

  /** The log of a longer run is longer. */
  lemma {:induction false} LogLonger(host: string, run: seq<Action>, more: seq<Action>)
    requires Exec(host, run).Some? && Exec(host, run + more).Some?
    ensures |Exec(host, run).value.attempts| <= |Exec(host, run + more).value.attempts|
  {
    hide Enabled, Apply, Sent;
    if more == [] {
      assert run + more == run;
    } else {
      var m := more[..|more| - 1];
      assert (run + more)[..|run + more| - 1] == run + m;
      ExecLast(host, run + more);
      LogLonger(host, run, m);
      LogGrows(Exec(host, run + m).value, more[|more| - 1]);
    }
  }

  /** The main loop serves and connection `c` is `k`, with no message waiting. */
  ghost predicate Hears(s: State, c: nat, k: Conn) {
    c < |s.conns| && s.conns[c] == k && s.main == Serving && s.msgs == [] && |k.input| >= HELLO
  }

  lemma EmptyQueue(host: string, run: seq<Action>, c: nat) returns (more: seq<Action>)
    requires Exec(host, run).Some? && c < |Exec(host, run).value.conns| && Exec(host, run).value.main == Serving
    requires |Exec(host, run).value.conns[c].input| >= HELLO
    ensures Exec(host, run + more).Some?
    ensures Hears(Exec(host, run + more).value, c, Exec(host, run).value.conns[c])
  {
    hide Enabled, Apply;
    more := Pumps(|Exec(host, run).value.msgs|);
    Pump(host, run, |Exec(host, run).value.msgs|);
  }

  /** The reader takes a step while the main loop waits. */
  lemma ReaderStep(host: string, run: seq<Action>, c: nat, k: Conn, l: Local)
    requires Exec(host, run).Some? && Hears(Exec(host, run).value, c, k) && (l.Receive? || l.Fetch?)
    requires k.taken <= |k.input| && LocalEnabled(k, l, [], false)
    ensures Exec(host, run + [Do(c, l)]).Some?
    ensures Hears(Exec(host, run + [Do(c, l)]).value, c, LocalStep(k, l, []))
  {
    hide Exec, Wire.TakeFrame, Wire.DecodeMessage;
    var s := Exec(host, run).value;
    ExecExtend(host, run, Do(c, l));
    MainMoves(s, Do(c, l));
  }

  lemma PassOn(host: string, run: seq<Action>, c: nat, k: Conn)
    requires Exec(host, run).Some? && Hears(Exec(host, run).value, c, k) && k.reader.Passing?
    ensures Exec(host, run + [Pass(c)]).Some?
    ensures var t := Exec(host, run + [Pass(c)]).value;
      && c < |t.conns| && t.conns[c] == k.(reader := Reading) && t.main == Serving
      && t.msgs == [Item(c, Id(k), k.reader.msg)]
  {
    hide Exec, Codecs.ToBase58;
    ExecExtend(host, run, Pass(c));
    MainMoves(Exec(host, run).value, Pass(c));
  }

  /** A chat of connection `c` waits for the main loop. */
  ghost predicate Waits(host: string, run: seq<Action>, c: nat) {
    Exec(host, run).Some? && Exec(host, run).value.main == Serving && ChatQueued(Exec(host, run).value, c)
  }

  lemma PassChat(host: string, run: seq<Action>, c: nat, k: Conn)
    requires Exec(host, run).Some? && Hears(Exec(host, run).value, c, k)
    requires k.reader.Passing? && k.reader.msg.kind == Chat
    ensures Waits(host, run + [Pass(c)], c)
  {
    hide Exec, Id;
    PassOn(host, run, c, k);
    assert ChatFrom(Exec(host, run + [Pass(c)]).value.msgs[0], c);
  }

  /** What fetching the first of a stream's frames does to a reader. */
  lemma FirstFetched(k: Conn)
    requires k.taken <= |k.input| && k.reader.Reading? && Speaks(Wire.TakeAll(k.input[k.taken..]).frames)
    ensures LocalEnabled(k, Fetch, [], false)
    ensures var k', fs := FetchStep(k), Wire.TakeAll(k.input[k.taken..]).frames;
      && k'.taken <= |k'.input| && k'.input == k.input
      && Wire.DecodeMessage(fs[0]).Ok?
      && (var m := Wire.DecodeMessage(fs[0]).value;
          && k'.reader == (if m.kind == Ping then Reading else Passing(m))
          && (m.kind != Chat ==> Speaks(fs[1..]) && Wire.TakeAll(k'.input[k'.taken..]).frames == fs[1..]))
  {
    hide Wire.TakeFrame, Wire.DecodeMessage;
    var u := k.input[k.taken..];
    assert Unread(k).result.Ok?;
    TakenFits(k);
    var f := Unread(k).result.value;
    assert u == f + Unread(k).rest && k.input[k.taken + |f|..] == u[|f|..] == Unread(k).rest;
    assert Wire.TakeAll(u).frames == [f] + Wire.TakeAll(Unread(k).rest).frames;
  }

  /** A running reader that comes to a chat can bring it to the main loop. */
  lemma {:induction false} ReadOn(host: string, run: seq<Action>, c: nat, k: Conn) returns (more: seq<Action>)
    requires Exec(host, run).Some? && Hears(Exec(host, run).value, c, k)
    requires k.taken <= |k.input| && k.reader.Reading? && Speaks(Wire.TakeAll(k.input[k.taken..]).frames)
    ensures Waits(host, run + more, c)
    decreases |Wire.TakeAll(k.input[k.taken..]).frames|
  {
    hide Exec, Wire.TakeFrame, Wire.TakeAll, Wire.DecodeMessage, LocalEnabled, FetchStep, Id;
    var fs := Wire.TakeAll(k.input[k.taken..]).frames;
    FirstFetched(k);
    var m, k1 := Wire.DecodeMessage(fs[0]).value, FetchStep(k);
    var fetch := [Do(c, Fetch)];
    ReaderStep(host, run, c, k, Fetch);
    if m.kind == Chat {
      PassChat(host, run + fetch, c, k1);
      more := fetch + [Pass(c)];
      assert run + more == run + fetch + [Pass(c)];
    } else if m.kind == Ping {
      var rest := ReadOn(host, run + fetch, c, k1);
      more := fetch + rest;
      assert run + more == run + fetch + rest;
    } else {
      PassOn(host, run + fetch, c, k1);
      var run1 := run + fetch + [Pass(c)];
      var empty := EmptyQueue(host, run1, c);
      var rest := ReadOn(host, run1 + empty, c, k1.(reader := Reading));
      more := fetch + [Pass(c)] + empty + rest;
      assert run + more == run1 + empty + rest;
    }
  }

  /** A promising reader can bring a chat. */
  lemma PromiseKept(host: string, run: seq<Action>, c: nat, k: Conn) returns (more: seq<Action>)
    requires Exec(host, run).Some? && c < |Exec(host, run).value.conns| && Exec(host, run).value.main == Serving
    requires Exec(host, run).value.conns[c] == k && |k.input| >= HELLO && k.taken <= |k.input| && Promising(k)
    ensures Waits(host, run + more, c)
  {
    hide Exec, Wire.TakeAll, Wire.TakeFrame, Speaks, CanSpeak, Promising, Hears, Waits;
    var empty := EmptyQueue(host, run, c);
    var rest := Promised(k);
    if k.reader.Passing? && k.reader.msg.kind == Chat {
      PassChat(host, run + empty, c, k);
      more := empty + [Pass(c)];
      assert run + more == run + empty + [Pass(c)];
    } else {
      var on := SpeakOn(host, run + empty, c, k, rest);
      more := empty + on;
      assert run + more == run + empty + on;
    }
  }

  /** Some bytes that keep the promise, unless the chat is in hand. */
  lemma Promised(k: Conn) returns (rest: Bytes)
    requires k.taken <= |k.input| && Promising(k)
    ensures k.reader.Passing? || k.reader.Reading?
    ensures !(k.reader.Passing? && k.reader.msg.kind == Chat) ==>
              Speaks(Wire.TakeAll(k.input[k.taken..] + rest).frames)
  {
    hide Wire.TakeAll, Speaks;
    rest := [];
    if !(k.reader.Passing? && k.reader.msg.kind == Chat) {
      rest :| Speaks(Wire.TakeAll(k.input[k.taken..] + rest).frames);
    }
  }

  lemma SpeakOn(host: string, run: seq<Action>, c: nat, k: Conn, rest: Bytes) returns (more: seq<Action>)
    requires Exec(host, run).Some? && Hears(Exec(host, run).value, c, k) && (k.reader.Passing? || k.reader.Reading?)
    requires k.taken <= |k.input| && Speaks(Wire.TakeAll(k.input[k.taken..] + rest).frames)
    ensures Waits(host, run + more, c)
  {
    hide Exec, Wire.TakeAll, Speaks, FetchStep, Hears, Waits;
    var run1, k1 := ReadingAgain(host, run, c, k);
    var come := [Do(c, Receive(rest))];
    ReaderStep(host, run1, c, k1, Receive(rest));
    var k2 := k1.(input := k.input + rest);
    assert k2.input[k2.taken..] == k.input[k.taken..] + rest;
    var on := ReadOn(host, run1 + come, c, k2);
    more := run1[|run|..] + come + on;
    assert run + more == run1 + come + on;
  }

  lemma ReadingAgain(host: string, run: seq<Action>, c: nat, k: Conn) returns (run1: seq<Action>, k1: Conn)
    requires Exec(host, run).Some? && Hears(Exec(host, run).value, c, k) && (k.reader.Passing? || k.reader.Reading?)
    ensures run <= run1 && k1 == k.(reader := Reading)
    ensures Exec(host, run1).Some? && Hears(Exec(host, run1).value, c, k1)
  {
    hide Exec, Id;
    run1, k1 := run, k;
    if k.reader.Passing? {
      PassOn(host, run, c, k);
      var empty := EmptyQueue(host, run + [Pass(c)], c);
      run1, k1 := run + [Pass(c)] + empty, k.(reader := Reading);
    }
  }

  /** A waiting chat can be reported. */
  lemma WaitingReports(host: string, run: seq<Action>, more: seq<Action>, c: nat)
    requires Exec(host, run).Some? && Exec(host, run + more).Some? && Waits(host, run + more, c)
    ensures CanReport(host, run, c)
  {
    hide Exec, Waits, CanReport, Reported;
    var on := TakeQueued(host, run + more, c);
    assert run + (more + on) == run + more + on;
    LogLonger(host, run, more);
    EarlierReported(Exec(host, run).value, Exec(host, run + more).value, Exec(host, run + (more + on)).value, c);
    Reports(host, run, more + on, c);
  }

  lemma Reports(host: string, run: seq<Action>, more: seq<Action>, c: nat)
    requires Exec(host, run).Some? && Exec(host, run + more).Some?
    requires Reported(Exec(host, run).value, Exec(host, run + more).value, c)
    ensures CanReport(host, run, c)
  {
    hide Exec, Reported;
  }

  lemma EarlierReported(s: State, mid: State, t: State, c: nat)
    requires |s.attempts| <= |mid.attempts| && Reported(mid, t, c)
    ensures Reported(s, t, c)
  {
  }

  lemma TakeQueued(host: string, run: seq<Action>, c: nat) returns (more: seq<Action>)
    requires Waits(host, run, c)
    ensures Exec(host, run + more).Some? && Reported(Exec(host, run).value, Exec(host, run + more).value, c)
  {
    var n := QueuedAt(Exec(host, run).value, c);
    hide Apply, Enabled, Exec, Pumps;
    Pump(host, run, n);
    Pumped(host, run + Pumps(n), c);
    more := Pumps(n) + [MainMessage];
    assert run + more == run + Pumps(n) + [MainMessage];
  }

  lemma QueuedAt(s: State, c: nat) returns (n: nat)
    requires ChatQueued(s, c)
    ensures n < |s.msgs| && ChatFrom(s.msgs[n], c)
  {
    n :| 0 <= n < |s.msgs| && ChatFrom(s.msgs[n], c);
  }

  /** The first item taken is reported. */
  lemma Pumped(host: string, run: seq<Action>, c: nat)
    requires Exec(host, run).Some? && Exec(host, run).value.main == Serving
    requires Exec(host, run).value.msgs != [] && ChatFrom(Exec(host, run).value.msgs[0], c)
    ensures Exec(host, run + [MainMessage]).Some?
    ensures var n, t := |Exec(host, run).value.attempts|, Exec(host, run + [MainMessage]).value;
      n < |t.attempts| && MessageOf(t.attempts[n], c)
  {
    hide Apply, Exec;
    PumpOnce(Exec(host, run).value);
    ExecExtend(host, run, MainMessage);
  }

  /** Messages after the leave: the host can still report a message of a connection that has left if
      and only if the main loop runs and a chat of it is queued, or in its reader's hand, or its reader
      still runs and what it has not read can be continued so that it comes to one. */
  lemma MessageAfterLeave(host: string, run: seq<Action>, c: nat)
    requires Exec(host, run).Some? && c < |Exec(host, run).value.conns|
    requires Exec(host, run).value.conns[c].phase == Gone
    ensures var s := Exec(host, run).value;
      CanReport(host, run, c) <==> s.main == Serving && (ChatQueued(s, c) || Promising(s.conns[c]))
  {
    var s := Exec(host, run).value;
    LogHolds(host, run);
    ShapesHold(host, run);
    assert Shape(s.conns[c]);
    hide Apply, Enabled, Sent, Logged, Promising, Shape;
    assert run + [] == run;
    if s.main == Serving && ChatQueued(s, c) {
      WaitingReports(host, run, [], c);
    } else if s.main == Serving && Promising(s.conns[c]) {
      var more := PromiseKept(host, run, c, s.conns[c]);
      WaitingReports(host, run, more, c);
    } else {
      assert Silent(s, c);
      forall more: seq<Action> | Exec(host, run + more).Some?
        ensures !Reported(s, Exec(host, run + more).value, c)
      {
        StaysSilent(host, run, more, c);
      }
    }
  }

  // ---- it happens ----

  /** A running room whose only connection is `k`. */
  ghost predicate Alone(s: State, k: Conn) { s.conns == [k] && s.main == Serving && s.msgs == [] }

  /** Takes one more step of the only connection that touches neither the main loop nor its channel. */
  lemma OneMore(host: string, run: seq<Action>, a: Action, k: Conn)
    requires Exec(host, run).Some? && Alone(Exec(host, run).value, k)
    requires Target(a) == Some(0) && !a.Pass? && Enabled(Exec(host, run).value, a)
    ensures Exec(host, run + [a]).Some?
    ensures Alone(Exec(host, run + [a]).value, ConnAfter(Exec(host, run).value, a, k))
    ensures Exec(host, run + [a]).value.chats == Exec(host, run).value.chats
    ensures Exec(host, run + [a]).value.nonces
         == Exec(host, run).value.nonces + (if a.CheckNonce? then {Nonce(k)} else {})
  {
    hide ConnAfter, LocalEnabled, Id, Info;
    ExecExtend(host, run, a);
    var s := Exec(host, run).value;
    MainMoves(s, a);
    NoncesAndChats(s, a);
  }

  lemma NoncesAndChats(s: State, a: Action)
    requires Valid(s) && Enabled(s, a) && Target(a).Some?
    ensures Apply(s, a).chats == s.chats
    ensures !a.CheckNonce? ==> Apply(s, a).nonces == s.nonces
    ensures a.CheckNonce? ==> Apply(s, a).nonces == s.nonces + {Nonce(s.conns[a.c])}
  {
    hide ConnsAfter, SharedAfter, LocalEnabled, Nonce;
    SharedNoncesAndChats(s, a);
  }

  lemma SharedNoncesAndChats(s: State, a: Action)
    requires Valid(s) && Enabled(s, a) && Target(a).Some?
    ensures SharedAfter(s, a).chats == s.chats
    ensures !a.CheckNonce? ==> SharedAfter(s, a).nonces == s.nonces
    ensures a.CheckNonce? ==> SharedAfter(s, a).nonces == s.nonces + {Nonce(s.conns[a.c])}
  {
    hide LocalEnabled, Id, Info, CanSend, At;
    match a
    case MainText =>
    case MainMessage =>
    case Announce(_) =>
    case Leave(_) =>
    case Launch(_) =>
    case MainClose =>
    case Pass(_) =>
    case _ =>
  }

  /** A connection whose nonce has been accepted and whose peer has sent `input`. */
  function Opened(input: Bytes): Conn {
    FRESH_CONN.(phase := AwaitName, input := input, taken := HELLO, burned := true, output := [0])
  }

  /** The handshake up to the name. */
  lemma Opening(host: string, hello: Bytes, rest: Bytes) returns (run: seq<Action>)
    requires |hello| == HELLO
    ensures Exec(host, run).Some?
    ensures Alone(Exec(host, run).value, Opened(hello + rest))
  {
    hide Wire.TakeFrame, Wire.EncodeMessage, Codecs.ToBase58;
    run := [];
    ExecExtend(host, run, Launch(true));
    run := run + [Launch(true)];
    ExecExtend(host, run, Admit);
    run := run + [Admit];
    var k := FRESH_CONN;
    assert Alone(Exec(host, run).value, k) && Exec(host, run).value.nonces == {};
    run := Greeted(host, run, hello, rest);
  }

  lemma Greeted(host: string, run: seq<Action>, hello: Bytes, rest: Bytes) returns (run': seq<Action>)
    requires |hello| == HELLO
    requires Exec(host, run).Some? && Alone(Exec(host, run).value, FRESH_CONN) && Exec(host, run).value.nonces == {}
    ensures Exec(host, run').Some?
    ensures Alone(Exec(host, run').value, Opened(hello + rest))
  {
    hide Wire.TakeFrame, Wire.EncodeMessage, Codecs.ToBase58, Exec;
    var k := FRESH_CONN;
    OneMore(host, run, Do(0, Receive(hello + rest)), k);
    run', k := run + [Do(0, Receive(hello + rest))], k.(input := [] + (hello + rest));
    assert [] + (hello + rest) == hello + rest;
    OneMore(host, run', Do(0, ReadHello), k);
    run', k := run' + [Do(0, ReadHello)], k.(phase := Checking, taken := HELLO);
    OneMore(host, run', CheckNonce(0), k);
    run', k := run' + [CheckNonce(0)], k.(phase := Accepting, burned := true);
    OneMore(host, run', Do(0, Acknowledge(true, true)), k);
    run' := run' + [Do(0, Acknowledge(true, true))];
  }

  lemma ReadingName(k: Conn, name: string, rest: Bytes)
    requires k.phase == AwaitName && k.taken <= |k.input| && Wire.EncodeMessage(SystemMessage(name)).Ok?
    requires k.input[k.taken..] == Wire.EncodeMessage(SystemMessage(name)).value + rest
    ensures LocalEnabled(k, ReadName, [], false)
    ensures ReadNameStep(k).phase == Registering && ReadNameStep(k).input == k.input
    ensures ReadNameStep(k).taken <= |k.input| && k.input[ReadNameStep(k).taken..] == rest
  {
    hide Wire.TakeFrame, Wire.EncodeMessage, Wire.DecodeMessage, Wire.IsFrame;
    var f := Wire.EncodeMessage(SystemMessage(name)).value;
    Wire.EncodingIsFrame(SystemMessage(name));
    Wire.MessageRoundTrip(SystemMessage(name));
    Wire.FrameReads(f, rest);
    assert k.input[k.taken + |f|..] == k.input[k.taken..][|f|..];
  }

  /** From the name to a running reader. */
  lemma Joining(host: string, run: seq<Action>, k: Conn, name: string, rest: Bytes)
      returns (run': seq<Action>, k': Conn)
    requires Exec(host, run).Some? && Alone(Exec(host, run).value, k)
    requires k.phase == AwaitName && !k.broken && HELLO <= k.taken <= |k.input|
    requires Wire.EncodeMessage(SystemMessage(name)).Ok?
    requires k.input[k.taken..] == Wire.EncodeMessage(SystemMessage(name)).value + rest
    ensures Exec(host, run').Some? && Alone(Exec(host, run').value, k')
    ensures k'.phase == Running && k'.reader == Reading
    ensures HELLO <= k'.taken <= |k'.input| && k'.input[k'.taken..] == rest
  {
    ReadingName(k, name, rest);
    NameFields(k);
    hide Exec, LocalStep, LocalEnabled, ReadNameStep, Alone, Wire.EncodeMessage;
    NameStep(host, run, k);
    run', k' := Entering(host, run + [Do(0, ReadName)], ReadNameStep(k), rest);
  }

  lemma NameStep(host: string, run: seq<Action>, k: Conn)
    requires Exec(host, run).Some? && Alone(Exec(host, run).value, k) && k.taken <= |k.input|
    requires LocalEnabled(k, ReadName, [], false)
    ensures Exec(host, run + [Do(0, ReadName)]).Some?
    ensures Alone(Exec(host, run + [Do(0, ReadName)]).value, ReadNameStep(k))
  {
    hide Exec, ReadNameStep, Wire.TakeFrame;
    OneMore(host, run, Do(0, ReadName), k);
  }

  lemma Entering(host: string, run: seq<Action>, k: Conn, rest: Bytes) returns (run': seq<Action>, k': Conn)
    requires Exec(host, run).Some? && Alone(Exec(host, run).value, k)
    requires k.phase == Registering && !k.broken && HELLO <= k.taken <= |k.input| && k.input[k.taken..] == rest
    ensures Exec(host, run').Some? && Alone(Exec(host, run').value, k')
    ensures k'.phase == Running && k'.reader == Reading
    ensures HELLO <= k'.taken <= |k'.input| && k'.input[k'.taken..] == rest
  {
    hide LocalStep, LocalEnabled, Id, Info, Exec;
    OneMore(host, run, Insert(0), k);
    run', k' := run + [Insert(0)], k.(phase := Announcing);
    OneMore(host, run', Announce(0), k');
    run', k' := run' + [Announce(0)], k'.(phase := Notifying, unsent := NoticeBytes(k'.name));
    run', k' := Settling(host, run', k', rest);
  }

  lemma Settling(host: string, run: seq<Action>, k: Conn, rest: Bytes) returns (run': seq<Action>, k': Conn)
    requires Exec(host, run).Some? && Alone(Exec(host, run).value, k)
    requires k.phase == Notifying && !k.broken && HELLO <= k.taken <= |k.input| && k.input[k.taken..] == rest
    ensures Exec(host, run').Some? && Alone(Exec(host, run').value, k')
    ensures k'.phase == Running && k'.reader == Reading
    ensures HELLO <= k'.taken <= |k'.input| && k'.input[k'.taken..] == rest
  {
    hide Wire.TakeFrame, Wire.EncodeMessage, Exec, Id, Info;
    var n := |k.unsent|;
    run', k' := run, k;
    if n > 0 {
      OneMore(host, run, Do(0, Take(n)), k);
      run', k' := run + [Do(0, Take(n))], TakeStep(k, n);
    }
    OneMore(host, run', Do(0, Notice), k');
    run', k' := Beginning(host, run' + [Do(0, Notice)], NoticeStep(k'), rest);
  }

  lemma Beginning(host: string, run: seq<Action>, k: Conn, rest: Bytes) returns (run': seq<Action>, k': Conn)
    requires Exec(host, run).Some? && Alone(Exec(host, run).value, k)
    requires k.phase == Starting && HELLO <= k.taken <= |k.input| && k.input[k.taken..] == rest
    ensures Exec(host, run').Some? && Alone(Exec(host, run').value, k')
    ensures k'.phase == Running && k'.reader == Reading
    ensures HELLO <= k'.taken <= |k'.input| && k'.input[k'.taken..] == rest
  {
    hide Wire.TakeFrame, Wire.EncodeMessage, Exec, Id, Info;
    OneMore(host, run, Do(0, StartReader), k);
    run', k' := run + [Do(0, StartReader)], k.(phase := Subscribing, reader := Reading);
    var s := Exec(host, run').value;
    OneMore(host, run', Do(0, Subscribe), k');
    run', k' := run' + [Do(0, Subscribe)], k'.(phase := Running, writer := Idle, start := |s.chats|);
  }

  lemma ReadingChat(k: Conn, m: WireMessage)
    requires k.reader == Reading && k.taken <= |k.input| && m.kind == Chat && Wire.EncodeMessage(m).Ok?
    requires k.input[k.taken..] == Wire.EncodeMessage(m).value
    ensures LocalEnabled(k, Fetch, [], false)
    ensures FetchStep(k).phase == k.phase && FetchStep(k).input == k.input && FetchStep(k).reader == Passing(m)
    ensures k.taken <= FetchStep(k).taken <= |k.input|
  {
    hide Wire.TakeFrame, Wire.EncodeMessage, Wire.DecodeMessage, Wire.IsFrame;
    var f := Wire.EncodeMessage(m).value;
    Wire.EncodingIsFrame(m);
    Wire.MessageRoundTrip(m);
    Wire.FrameReads(f, []);
    assert f + [] == f;
  }

  /** The chat goes into the channel, the peer goes, and the handler reports the leave first. */
  lemma Overtaking(host: string, run: seq<Action>, k: Conn, m: WireMessage) returns (run': seq<Action>)
    requires Exec(host, run).Some? && Alone(Exec(host, run).value, k)
    requires k.phase == Running && k.reader == Passing(m) && m.kind == Chat && HELLO <= k.taken <= |k.input|
    ensures Exec(host, run').Some?
    ensures var s := Exec(host, run').value;
      && |s.conns| == 1 && s.conns[0].phase == Gone && s.conns[0].reader == ReaderDone
      && s.main == Serving && ChatQueued(s, 0)
  {
    hide Wire.TakeFrame, Wire.EncodeMessage, Codecs.ToBase58, Exec;
    var steps := [Pass(0), Do(0, ReaderEnds), Do(0, Wake), Remove(0), Leave(0)];
    run' := run;
    for i := 0 to 5
      invariant Exec(host, run').Some?
      invariant var s := Exec(host, run').value;
        && |s.conns| == 1 && s.main == Serving && HELLO <= |s.conns[0].input|
        && (i == 0 ==> s.conns[0].reader == Passing(m) && s.msgs == [])
        && (i == 1 ==> s.conns[0].reader == Reading)
        && (i >= 2 ==> s.conns[0].reader == ReaderDone)
        && (i >= 1 ==> |s.msgs| == 1 && ChatFrom(s.msgs[0], 0))
        && s.conns[0].phase
           == (if i <= 2 then Running else if i == 3 then Removing else if i == 4 then Leaving else Gone)
    {
      ExecExtend(host, run', steps[i]);
      run' := run' + [steps[i]];
    }
  }

  lemma JoinAndFetch(host: string, run: seq<Action>, hello: Bytes, name: string, m: WireMessage)
    returns (r: (seq<Action>, Conn))
    requires |hello| == HELLO && m.kind == Chat
    requires Wire.EncodeMessage(SystemMessage(name)).Ok? && Wire.EncodeMessage(m).Ok?
    requires Exec(host, run).Some?
    requires Alone(Exec(host, run).value,
        Opened(hello + (Wire.EncodeMessage(SystemMessage(name)).value + Wire.EncodeMessage(m).value)))
    ensures Exec(host, r.0).Some? && Alone(Exec(host, r.0).value, r.1)
    ensures r.1.phase == Running && r.1.reader == Passing(m) && HELLO <= r.1.taken <= |r.1.input|
  {
    hide Exec, Wire.EncodeMessage, Wire.TakeFrame, Wire.DecodeMessage, Codecs.ToBase58, NoticeStep, ReadNameStep,
        Wire.IsFrame;
    var f, rest := Wire.EncodeMessage(SystemMessage(name)).value, Wire.EncodeMessage(m).value;
    var k0 := Opened(hello + (f + rest));
    assert k0.input[HELLO..] == f + rest;
    var joined, k := Joining(host, run, k0, name, rest);
    ReadingChat(k, m);
    OneMore(host, joined, Do(0, Fetch), k);
    r := (joined + [Do(0, Fetch)], FetchStep(k));
  }

  /** The order "join before message before leave" is broken by a reachable run: for any 32 bytes, any
      name and any chat that encode, the host can report the chat after the leave. */
  lemma LeaveOvertakesMessage(host: string, hello: Bytes, name: string, text: string) returns (run: seq<Action>)
    requires |hello| == HELLO
    requires Wire.EncodeMessage(SystemMessage(name)).Ok? && Wire.EncodeMessage(ChatMessage(name, text)).Ok?
    ensures Exec(host, run).Some? && |Exec(host, run).value.conns| == 1
    ensures HasLeft(Exec(host, run).value.attempts, 0) && CanReport(host, run, 0)
  {
    var f, m := Wire.EncodeMessage(SystemMessage(name)).value, ChatMessage(name, text);
    var rest := Wire.EncodeMessage(m).value;
    hide Exec, Wire.EncodeMessage, Wire.TakeFrame, Codecs.ToBase58, FetchStep;
    var opening := Opening(host, hello, f + rest);
    var joined := JoinAndFetch(host, opening, hello, name, m);
    run := Overtaking(host, joined.0, joined.1, m);
    LogHolds(host, run);
    MessageAfterLeave(host, run, 0);
  }
}
