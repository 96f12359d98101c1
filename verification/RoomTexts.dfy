/** From the room handles to the host's reports and broadcasts: the texts pushed, in order, under the
    host's name. */
module RoomTexts {
  import opened Json
  import opened Room
  import opened RoomOrder

  /** The texts of the host's own messages among the attempts, in order. */
  function HostSaid(log: seq<Attempt>): seq<string> {
    if log == [] then []
    else
      var a := Last(log);
      HostSaid(Front(log)) + (if a.origin == Host && a.event.Message? then [a.event.text] else [])
  }

  function Broadcast(host: string, texts: seq<string>): (ms: seq<WireMessage>)
    ensures |ms| == |texts| && forall i :: 0 <= i < |ms| ==> ms[i] == ChatMessage(host, texts[i])
  {
    seq(|texts|, i requires 0 <= i < |texts| => ChatMessage(host, texts[i]))
  }

  /** What was reported and what was broadcast is the same first part of what was pushed; while the room
      may still come to serve or serves, the rest waits in the channel. */
  ghost predicate TextsKept(host: string, s: State) {
    && s.hostName == host
    && |s.chats| <= |s.pushed|
    && s.chats == Broadcast(host, s.pushed[..|s.chats|])
    && HostSaid(s.attempts) == s.pushed[..|s.chats|]
    && (s.main == Launching || s.main == Serving ==> s.texts == s.pushed[|s.chats|..])
  }

  lemma HostSaidSnoc(log: seq<Attempt>, a: Attempt)
    ensures HostSaid(log + [a]) == HostSaid(log) + (if a.origin == Host && a.event.Message? then [a.event.text] else [])
  {
    assert Front(log + [a]) == log && Last(log + [a]) == a;
  }

  /** What a step does to texts and chats. */
  predicate TextsAfter(s: State, a: Action, t: State) {
    && t.hostName == s.hostName
    && t.pushed == (if a.PushText? then s.pushed + [a.text] else s.pushed)
    && (a.PushText? ==> t.texts == s.texts + [a.text])
    && (a.MainText? ==> s.texts != [] && t.texts == s.texts[1..])
    && (!a.PushText? && !a.MainText? ==> t.texts == s.texts)
    && (if a.MainText? && s.main == Serving
        then s.texts != [] && t.chats == s.chats + [ChatMessage(s.hostName, s.texts[0])]
        else t.chats == s.chats)
  }

  lemma SharedTexts(s: State, a: Action)
    requires Valid(s) && Enabled(s, a)
    ensures TextsAfter(s, a, SharedAfter(s, a))
  {
    if a.MainText? {
      hide LocalEnabled, Id, Info, CanSend, At, Locked, Nonce, HostSaid, PassStep, MainMessageStep, ProgressStep;
    } else {
      OtherTexts(s, a);
    }
  }

  lemma OtherTexts(s: State, a: Action)
    requires Valid(s) && Enabled(s, a) && !a.MainText?
    ensures TextsAfter(s, a, SharedAfter(s, a))
  {
    hide LocalEnabled, Id, Info, CanSend, At, Locked, Nonce, HostSaid, MainTextStep;
    match a
    case MainMessage =>
    case Announce(_) =>
    case Leave(_) =>
    case Launch(_) =>
    case MainClose =>
    case Pass(_) =>
    case Progress(_) =>
    case _ =>
  }

  lemma TextsMove(s: State, a: Action)
    requires Valid(s) && Enabled(s, a)
    ensures TextsAfter(s, a, Apply(s, a))
  {
    hide ConnsAfter, SharedAfter, LocalEnabled;
    SharedTexts(s, a);
  }

  /** Only the arm for texts makes the host say something. */
  lemma SaidMoves(s: State, a: Action)
    requires Valid(s) && Enabled(s, a)
    ensures HostSaid(Apply(s, a).attempts)
         == HostSaid(s.attempts) + (if a.MainText? && s.main == Serving then [s.texts[0]] else [])
  {
    LogGrows(s, a);
    hide Apply, LocalEnabled, Id, Info, HostSaid;
    if Sent(s, a).Some? { HostSaidSnoc(s.attempts, Logged(s, a)); }
    assert HostSaid(s.attempts) + [] == HostSaid(s.attempts);
  }

  lemma TextsStep(host: string, s: State, a: Action)
    requires Valid(s) && Enabled(s, a) && TextsKept(host, s)
    ensures TextsKept(host, Apply(s, a))
  {
    hide Apply, LocalEnabled, HostSaid, Sent;
    TextsMove(s, a);
    SaidMoves(s, a);
    MainMoves(s, a);
    var t, n := Apply(s, a), |s.chats|;
    assert HostSaid(s.attempts) + [] == HostSaid(s.attempts);
    if a.PushText? {
      assert t.pushed[..n] == s.pushed[..n] && t.pushed[n..] == s.pushed[n..] + [a.text];
    } else if a.MainText? && s.main == Serving {
      assert s.texts[0] == s.pushed[n];
      assert s.pushed[..n + 1] == s.pushed[..n] + [s.pushed[n]];
      assert s.pushed[n + 1..] == s.pushed[n..][1..];
    }
  }

  /** In every reachable state the host has reported and broadcast the same first part of the texts
      pushed, in order and under its own name. */
  lemma {:induction false} TextsHold(host: string, run: seq<Action>)
    requires Exec(host, run).Some?
    ensures TextsKept(host, Exec(host, run).value)
  {
    hide Apply, Enabled;
    if run != [] {
      ExecLast(host, run);
      TextsHold(host, run[..|run| - 1]);
      TextsStep(host, Exec(host, run[..|run| - 1]).value, run[|run| - 1]);
    }
  }
}
