/** Everything the host itself reports, spelled out for every run: the bootstrap's progress, that the room is
    ready or has failed, its own messages, and that the room is closed. */
module RoomHost {
  import opened Room
  import opened RoomOrder
  import RoomTexts

  /** The events the host itself tried to send, in order. */
  function HostEvents(log: seq<Attempt>): seq<Event> {
    if log == [] then []
    else HostEvents(Front(log)) + (if Last(log).origin == Host then [Last(log).event] else [])
  }

  function Opening(run: seq<Action>): seq<Event> {
    if Launch(true) in run then [RoomReady] else if Launch(false) in run then [RoomError] else []
  }

  function OwnMessages(host: string, texts: seq<string>): (es: seq<Event>)
    ensures |es| == |texts| && forall i :: 0 <= i < |es| ==> es[i] == Message("[hub]", host, texts[i])
  {
    seq(|texts|, i requires 0 <= i < |texts| => Message("[hub]", host, texts[i]))
  }

  function Closing(run: seq<Action>): seq<Event> { if MainClose in run then [RoomClosed] else [] }

  /** The progress the bootstrap passes on, as long as somebody listens. */
  function Boots(run: seq<Action>): seq<Event> {
    if run == [] then []
    else
      var n := |run| - 1;
      Boots(run[..n]) + (match run[n]
                         case Progress(percent) =>
                           if StopListening in run[..n] then [] else [BootstrapProgress(percent)]
                         case _ => [])
  }

  /** Where the main loop stands, by the steps taken. */
  ghost predicate MainTells(run: seq<Action>, s: State) {
    && (s.main == Launching <==> Launch(true) !in run && Launch(false) !in run)
    && (s.main == Serving ==> Launch(true) in run)
    && (s.main == Refused ==> Launch(true) !in run)
    && (MainClose in run ==> s.main == Ended)
    && (Launch(true) !in run ==> s.chats == [])
    && (s.main == Ended ==> MainClose in run || MainTextsClosed in run)
  }

  ghost predicate Reported(host: string, run: seq<Action>, s: State) {
    && |s.chats| <= |s.pushed|
    && HostEvents(s.attempts) == Opening(run) + OwnMessages(host, s.pushed[..|s.chats|]) + Closing(run)
  }

  lemma HostEventsSnoc(log: seq<Attempt>, a: Attempt)
    ensures HostEvents(log + [a]) == HostEvents(log) + (if a.origin == Host then [a.event] else [])
  {
    assert Front(log + [a]) == log && Last(log + [a]) == a;
  }

  /** The host's own event of one step. */
  lemma HostStep(s: State, a: Action)
    requires Valid(s) && Enabled(s, a)
    ensures HostEvents(Apply(s, a).attempts)
         == HostEvents(s.attempts)
            + (match a
               case Launch(ok) => [if ok then RoomReady else RoomError]
               case MainClose => [RoomClosed]
               case MainText =>
                 if s.main == Serving && s.texts != [] then [Message("[hub]", s.hostName, s.texts[0])] else []
               case _ => [])
  {
    LogGrows(s, a);
    if Sent(s, a).Some? {
      HostEventsSnoc(s.attempts, Logged(s, a));
    }
    hide Apply, LocalEnabled, Id, Info, HostEvents;
    assert HostEvents(s.attempts) + [] == HostEvents(s.attempts);
  }

  lemma MainTellsStep(run: seq<Action>, s: State, a: Action)
    requires Valid(s) && Enabled(s, a) && MainTells(run, s)
    ensures MainTells(run + [a], Apply(s, a))
  {
    hide Apply, Enabled;
    MainMoves(s, a);
    RoomTexts.TextsMove(s, a);
    Arms(s, a);
    MainArms(run, a);
  }

  lemma MainArms(run: seq<Action>, a: Action)
    ensures Launch(true) in run + [a] <==> Launch(true) in run || a == Launch(true)
    ensures Launch(false) in run + [a] <==> Launch(false) in run || a == Launch(false)
    ensures MainClose in run + [a] <==> MainClose in run || a == MainClose
    ensures MainTextsClosed in run + [a] <==> MainTextsClosed in run || a == MainTextsClosed
  {
  }

  /** When the main loop's steps are possible. */
  lemma Arms(s: State, a: Action)
    requires Valid(s) && Enabled(s, a)
    ensures a.Launch? ==> s.main == Launching
    ensures a.MainClose? || a.MainText? || a.MainTextsClosed? ==> s.main == Serving || s.main == Refused
    ensures a.MainText? ==> s.texts != []
    ensures a.MainTextsClosed? ==> !s.textsOpen && s.texts == []
    ensures a.MainClose? ==> s.signalled
  {
    hide LocalEnabled;
  }

  /** What a step adds at either end. */
  lemma EndsMove(run: seq<Action>, s: State, a: Action)
    requires Valid(s) && Enabled(s, a) && MainTells(run, s)
    ensures Opening(run + [a])
         == if a.Launch? then Opening(run) + [if a.ok then RoomReady else RoomError] else Opening(run)
    ensures Closing(run + [a]) == if a.MainClose? then [RoomClosed] else Closing(run)
    ensures a.Launch? ==> s.chats == [] && Opening(run) == []
    ensures a.Launch? || a.MainClose? || a.MainText? ==> Closing(run) == []
  {
    Arms(s, a);
    hide Enabled;
    assert forall x :: x in run + [a] <==> x in run || x == a;
  }

  /** What it adds to the messages in between. */
  lemma MessagesMove(host: string, s: State, a: Action)
    requires Valid(s) && Enabled(s, a) && RoomTexts.TextsKept(host, s)
    ensures var t := Apply(s, a); |t.chats| <= |t.pushed|
    ensures var t := Apply(s, a);
      OwnMessages(host, t.pushed[..|t.chats|])
      == OwnMessages(host, s.pushed[..|s.chats|])
         + (if a.MainText? && s.main == Serving && s.texts != [] then [Message("[hub]", host, s.texts[0])] else [])
  {
    Arms(s, a);
    RoomTexts.TextsMove(s, a);
    hide Apply, Enabled, RoomTexts.HostSaid;
    var t, n := Apply(s, a), |s.chats|;
    if a.MainText? && s.main == Serving {
      assert t.pushed[..n + 1] == s.pushed[..n] + [s.texts[0]];
    } else {
      assert t.pushed[..n] == s.pushed[..n];
    }
  }

  lemma ReportedStep(host: string, run: seq<Action>, s: State, a: Action)
    requires Valid(s) && Enabled(s, a) && MainTells(run, s) && Reported(host, run, s) && RoomTexts.TextsKept(host, s)
    ensures Reported(host, run + [a], Apply(s, a))
  {
    hide Apply, Enabled, HostEvents, RoomTexts.TextsKept, Opening, Closing, MainTells, OwnMessages;
    HostStep(s, a);
    EndsMove(run, s, a);
    MessagesMove(host, s, a);
    HostKept(host, s);
    NothingBetween(run, host, s, a);
    var t := Apply(s, a);
    Put(Opening(run), OwnMessages(host, s.pushed[..|s.chats|]), Closing(run),
        Opening(run + [a]), OwnMessages(host, t.pushed[..|t.chats|]), Closing(run + [a]),
        HostEvents(t.attempts)[|HostEvents(s.attempts)|..]);
  }

  /** The first piece grows only before there is any other, the second only before the third. */
  lemma Put<T>(o: seq<T>, m: seq<T>, c: seq<T>, o': seq<T>, m': seq<T>, c': seq<T>, e: seq<T>)
    requires || (o' == o + e && m' == m == c' == c == [])
             || (o' == o && m' == m + e && c' == c == [])
             || (o' == o && m' == m && c' == e && c == [])
             || (o' == o && m' == m && c' == c && e == [])
    ensures o' + m' + c' == o + m + c + e
  {
  }

  lemma NothingBetween(run: seq<Action>, host: string, s: State, a: Action)
    requires Valid(s) && Enabled(s, a) && MainTells(run, s) && |s.chats| <= |s.pushed|
    ensures a.Launch? ==> OwnMessages(host, s.pushed[..|s.chats|]) == []
  {
    EndsMove(run, s, a);
    hide Enabled;
  }

  lemma HostKept(host: string, s: State)
    requires RoomTexts.TextsKept(host, s)
    ensures s.hostName == host
  {
  }

  /** In every run the host itself reports, in order and no more: that the room is ready or that it failed,
      once its launch has ended; the texts it has taken so far from those pushed, under its own name; and that
      the room is closed, if it took the closing arm. It ends by that arm or by the end of the handles. */
  lemma {:induction false} HostReports(host: string, run: seq<Action>)
    requires Exec(host, run).Some?
    ensures var s := Exec(host, run).value;
      && |s.chats| <= |s.pushed|
      && HostEvents(s.attempts) == Opening(run) + OwnMessages(host, s.pushed[..|s.chats|]) + Closing(run)
      && MainTells(run, s)
  {
    hide Apply, Enabled, HostEvents, Opening, Closing;
    RoomTexts.TextsHold(host, run);
    if run == [] {
      NothingReported(host);
    } else {
      var m := run[..|run| - 1];
      ExecLast(host, run);
      HostReports(host, m);
      RoomTexts.TextsHold(host, m);
      assert m + [run[|run| - 1]] == run;
      MainTellsStep(m, Exec(host, m).value, run[|run| - 1]);
      ReportedStep(host, m, Exec(host, m).value, run[|run| - 1]);
    }
  }

  lemma NothingReported(host: string)
    ensures Reported(host, [], Init(host)) && MainTells([], Init(host))
  {
  }

  // ---- the bootstrap ----

  lemma ListeningMoves(s: State, a: Action)
    requires Valid(s) && Enabled(s, a)
    ensures Apply(s, a).listening == (s.listening && !a.StopListening?)
  {
    hide ConnsAfter, SharedAfter, LocalEnabled;
    SharedListening(s, a);
  }

  lemma SharedListening(s: State, a: Action)
    requires Valid(s) && Enabled(s, a)
    ensures SharedAfter(s, a).listening == (s.listening && !a.StopListening?)
  {
    hide LocalEnabled, Id, Info, CanSend, At, Locked, Nonce;
    match a
    case MainText =>
    case MainMessage =>
    case Announce(_) =>
    case Leave(_) =>
    case Launch(_) =>
    case MainClose =>
    case Pass(_) =>
    case Progress(_) =>
    case StopListening =>
    case _ =>
  }

  /** What the client gets is the bootstrap's progress, each percentage as reported and as long as the client
      listens, and then the room's events that were accepted. */
  lemma {:induction false} ProgressFirst(host: string, run: seq<Action>)
    requires Exec(host, run).Some?
    ensures var s := Exec(host, run).value;
      && (s.listening <==> StopListening !in run)
      && s.consumed + s.queue == Boots(run) + Delivered(s.attempts)
      && s.boot == Boots(run)
  {
    hide Apply, Enabled, Delivered;
    Channel(host, run);
    if run != [] {
      var m, a := run[..|run| - 1], run[|run| - 1];
      ExecLast(host, run);
      ProgressFirst(host, m);
      BootMoves(Exec(host, m).value, a);
      ListeningMoves(Exec(host, m).value, a);
      assert run == m + [a];
      assert Boots(m) + [] == Boots(m);
    }
  }
}
