/** The room handles and the room together: what the handles send and give back is what signals the room
    and closes its channel of texts, and nothing else does. */
module RoomHandles {
  import opened Basics
  import H = Handles
  import R = Room
  import Host
  import RoomOrder

  /** A call on a handle, with the text when it posts one, or a step of the room's own tasks. */
  datatype Step = Call(a: H.Action, text: string) | Task(step: R.Action)

  /** The steps taken so far on either side. */
  datatype Pair = Pair(handles: seq<H.Action>, room: seq<R.Action>)

  /** What the room sees of a call. The shutdown and text senders are dropped with the last reference; the
      listeners take a closed shutdown channel for the signal. */
  function Effects(s: H.State, a: H.Action, text: string): seq<R.Action> {
    match a
    case Signal(_) => [R.Signal]
    case DropSignal(_) => [R.Signal]
    case Release(_) => if s.count == 1 then [R.CloseTexts] + [R.Signal] else []
    case SendPost(_, open) => if open then [R.PushText(text)] else []
    case _ => []
  }

  /** A step the room's tasks take by themselves. */
  predicate Own(a: R.Action) { !a.Signal? && !a.CloseTexts? && !a.PushText? }

  /** A text goes in exactly while the main loop still receives. */
  predicate Posts(a: H.Action, main: R.Main) { a.SendPost? ==> (a.open <==> main != R.Ended) }

  function Joint(host: string, steps: seq<Step>): (r: Option<Pair>)
    ensures r.Some? ==> H.Exec(r.value.handles).Some? && R.Exec(host, r.value.room).Some?
  {
    if steps == [] then Some(Pair([], []))
    else match Joint(host, steps[..|steps| - 1])
      case None => None
      case Some(p) =>
        match steps[|steps| - 1]
        case Call(a, text) =>
          var q := Pair(p.handles + [a], p.room + Effects(H.Exec(p.handles).value, a, text));
          if Posts(a, R.Exec(host, p.room).value.main) && H.Exec(q.handles).Some? && R.Exec(host, q.room).Some?
          then Some(q) else None
        case Task(a) =>
          if Own(a) && R.Exec(host, p.room + [a]).Some? then Some(Pair(p.handles, p.room + [a])) else None
  }

  /** The room is signalled when shutdown was sent or its sender is gone, its channel of texts is open as
      long as a handle holds it, and what was pushed is what was posted. */
  ghost predicate Tied(h: H.State, r: R.State) {
    && (r.signalled <==> h.signals > 0 || h.freed)
    && (r.textsOpen <==> !h.freed)
    && |r.pushed| == h.posted
  }

  // ---- steps ----

  /** The part of the room's state the handles act on. */
  predicate Same(s: R.State, t: R.State) {
    t.signalled == s.signalled && t.textsOpen == s.textsOpen && t.pushed == s.pushed
  }

  lemma SharedSame(s: R.State, a: R.Action)
    requires R.Valid(s) && R.Enabled(s, a) && Own(a)
    ensures Same(s, R.SharedAfter(s, a))
  {
    if R.Target(a).Some? { HandlersSame(s, a); } else { HostSame(s, a); }
    hide R.SharedAfter;
  }

  lemma HandlersSame(s: R.State, a: R.Action)
    requires R.Valid(s) && R.Enabled(s, a) && R.Target(a).Some?
    ensures Same(s, R.SharedAfter(s, a))
  {
    hide R.LocalEnabled, R.Id, R.Info, R.Nonce, R.Locked, R.CanSend, R.MainTextStep, R.MainMessageStep, R.ProgressStep;
    match a
    case Announce(_) =>
    case Leave(_) =>
    case Pass(_) =>
    case _ =>
  }

  lemma HostSame(s: R.State, a: R.Action)
    requires R.Valid(s) && R.Enabled(s, a) && R.Target(a).None? && Own(a)
    ensures Same(s, R.SharedAfter(s, a))
  {
    hide R.LocalEnabled, R.Id, R.Info, R.Nonce, R.Locked, R.At, R.PassStep;
    match a
    case MainText =>
    case MainMessage =>
    case Launch(_) =>
    case MainClose =>
    case Progress(_) =>
    case _ =>
  }

  lemma OwnKeeps(s: R.State, a: R.Action)
    requires R.Valid(s) && R.Enabled(s, a) && Own(a)
    ensures Same(s, R.Apply(s, a))
  {
    hide R.ConnsAfter, R.SharedAfter, R.LocalEnabled;
    SharedSame(s, a);
  }

  lemma HandleEffects(s: R.State)
    requires R.Valid(s)
    ensures R.Enabled(s, R.Signal) && R.Apply(s, R.Signal) == s.(signalled := true)
    ensures s.textsOpen ==> R.Enabled(s, R.CloseTexts) && R.Apply(s, R.CloseTexts) == s.(textsOpen := false)
  {
    hide R.LocalEnabled;
  }

  lemma PushEffect(s: R.State, text: string)
    requires R.Valid(s) && R.Enabled(s, R.PushText(text))
    ensures R.Apply(s, R.PushText(text)) == s.(texts := s.texts + [text], pushed := s.pushed + [text])
  {
    hide R.LocalEnabled;
  }

  /** One more step of a run that exists. */
  lemma Extended(host: string, run: seq<R.Action>, a: R.Action)
    requires R.Exec(host, run).Some? && R.Exec(host, run + [a]).Some?
    ensures R.Enabled(R.Exec(host, run).value, a)
    ensures R.Exec(host, run + [a]).value == R.Apply(R.Exec(host, run).value, a)
  {
    assert (run + [a])[..|run|] == run;
    R.ExecLast(host, run + [a]);
  }

  lemma CallExtended(run: seq<H.Action>, a: H.Action)
    requires H.Exec(run).Some? && H.Exec(run + [a]).Some?
    ensures H.Enabled(H.Exec(run).value, a)
    ensures H.Exec(run + [a]).value == H.Apply(H.Exec(run).value, a)
  {
    assert (run + [a])[..|run|] == run;
  }

  /** The last reference is given back while the channels are open, so closing them is always possible. */
  lemma Closing(host: string, run: seq<R.Action>)
    requires R.Exec(host, run).Some? && R.Exec(host, run).value.textsOpen
    ensures R.Exec(host, run + ([R.CloseTexts] + [R.Signal]))
         == Some(R.Exec(host, run).value.(textsOpen := false, signalled := true))
  {
    hide R.Apply, R.Enabled, R.Exec;
    var s := R.Exec(host, run).value;
    HandleEffects(s);
    R.ExecExtend(host, run, R.CloseTexts);
    HandleEffects(s.(textsOpen := false));
    R.ExecExtend(host, run + [R.CloseTexts], R.Signal);
    assert run + ([R.CloseTexts] + [R.Signal]) == run + [R.CloseTexts] + [R.Signal];
  }

  lemma Signalling(host: string, run: seq<R.Action>)
    requires R.Exec(host, run).Some?
    ensures R.Exec(host, run + [R.Signal]) == Some(R.Exec(host, run).value.(signalled := true))
  {
    hide R.Apply, R.Enabled;
    HandleEffects(R.Exec(host, run).value);
    R.ExecExtend(host, run, R.Signal);
  }

  /** What a call does to the numbers the room depends on. */
  lemma CallMoves(s: H.State, a: H.Action)
    requires H.Inv(s) && H.Enabled(s, a)
    ensures var t := H.Apply(s, a);
      && t.signals == s.signals + (if a.Signal? || a.DropSignal? then 1 else 0)
      && t.freed == (s.freed || (a.Release? && s.count == 1))
      && t.posted == s.posted + (if a.SendPost? && a.open then 1 else 0)
      && (a.Release? ==> !s.freed)
  {
    hide H.References, H.Debts;
  }

  lemma CallTies(host: string, p: Pair, a: H.Action, text: string)
    requires H.Exec(p.handles).Some? && R.Exec(host, p.room).Some? && H.Exec(p.handles + [a]).Some?
    requires Tied(H.Exec(p.handles).value, R.Exec(host, p.room).value)
    requires R.Exec(host, p.room + Effects(H.Exec(p.handles).value, a, text)).Some?
    ensures Tied(H.Exec(p.handles + [a]).value,
                 R.Exec(host, p.room + Effects(H.Exec(p.handles).value, a, text)).value)
  {
    hide R.Exec, R.Apply, R.Enabled, H.Exec, H.Apply, H.Enabled, H.Inv;
    var s, r := H.Exec(p.handles).value, R.Exec(host, p.room).value;
    H.InvHolds(p.handles);
    CallExtended(p.handles, a);
    CallMoves(s, a);
    if a.Signal? || a.DropSignal? {
      Signalling(host, p.room);
    } else if a.Release? && s.count == 1 {
      Closing(host, p.room);
    } else if a.SendPost? && a.open {
      Extended(host, p.room, R.PushText(text));
      PushEffect(r, text);
    } else {
      assert p.room + [] == p.room;
    }
  }

  /** In every reachable state of the two together the room is tied to its handles. */
  lemma {:induction false} TiedHolds(host: string, steps: seq<Step>)
    requires Joint(host, steps).Some?
    ensures var p := Joint(host, steps).value; Tied(H.Exec(p.handles).value, R.Exec(host, p.room).value)
  {
    hide R.Apply, R.Enabled, H.Apply, H.Enabled, Tied;
    if steps == [] {
      StartTied(host);
    } else {
      TiedHolds(host, steps[..|steps| - 1]);
      var p := Joint(host, steps[..|steps| - 1]).value;
      match steps[|steps| - 1]
      case Call(a, text) => CallTies(host, p, a, text);
      case Task(a) =>
        Extended(host, p.room, a);
        OwnTies(H.Exec(p.handles).value, R.Exec(host, p.room).value, a);
    }
  }

  lemma OwnTies(h: H.State, s: R.State, a: R.Action)
    requires R.Valid(s) && R.Enabled(s, a) && Own(a) && Tied(h, s)
    ensures Tied(h, R.Apply(s, a))
  {
    hide R.Apply, R.Enabled;
    OwnKeeps(s, a);
  }

  lemma StartTied(host: string)
    ensures Tied(H.Exec([]).value, R.Exec(host, []).value)
  {
  }

  // ---- the theorems ----

  /** The tie holds no call up: whatever a handle may do at this point, it may do in the room as well, but
      for a post, which needs a free place in the channel while the main loop receives. */
  lemma CallsGoOn(host: string, steps: seq<Step>, a: H.Action, text: string)
    requires Joint(host, steps).Some? && !a.SendPost?
    requires H.Enabled(H.Exec(Joint(host, steps).value.handles).value, a)
    ensures Joint(host, steps + [Call(a, text)]).Some?
  {
    hide Joint, H.Exec, H.Enabled, R.Exec, H.Inv, Tied, Effects;
    var p := Joint(host, steps).value;
    TiedHolds(host, steps);
    H.InvHolds(p.handles);
    CallPossible(p.handles, a);
    EffectsPossible(host, p.room, H.Exec(p.handles).value, a, text);
    JointCall(host, steps, p, a, text);
  }

  lemma JointCall(host: string, steps: seq<Step>, p: Pair, a: H.Action, text: string)
    requires Joint(host, steps) == Some(p) && H.Exec(p.handles).Some? && R.Exec(host, p.room).Some?
    requires H.Exec(p.handles + [a]).Some? && Posts(a, R.Exec(host, p.room).value.main)
    requires R.Exec(host, p.room + Effects(H.Exec(p.handles).value, a, text)).Some?
    ensures Joint(host, steps + [Call(a, text)]).Some?
  {
    hide H.Exec, R.Exec, Effects;
    assert (steps + [Call(a, text)])[..|steps|] == steps;
  }

  lemma CallPossible(run: seq<H.Action>, a: H.Action)
    requires H.Exec(run).Some? && H.Enabled(H.Exec(run).value, a)
    ensures H.Exec(run + [a]).Some?
  {
    assert (run + [a])[..|run|] == run;
    hide H.Enabled, H.Apply;
  }

  lemma EffectsPossible(host: string, run: seq<R.Action>, s: H.State, a: H.Action, text: string)
    requires R.Exec(host, run).Some? && H.Inv(s) && H.Enabled(s, a) && Tied(s, R.Exec(host, run).value) && !a.SendPost?
    ensures R.Exec(host, run + Effects(s, a, text)).Some?
  {
    hide R.Exec, H.Inv, H.Enabled, H.Apply;
    CallMoves(s, a);
    if a.Signal? || a.DropSignal? {
      Signalling(host, run);
    } else if a.Release? && s.count == 1 {
      Closing(host, run);
    } else {
      assert run + [] == run;
    }
  }

  /** A text that passed the check of the quit flag goes into the room's channel, behind all that were sent
      before, exactly when the main loop has not ended and fewer than 64 texts wait. */
  lemma TextGoesIn(host: string, steps: seq<Step>, h: nat, text: string)
    requires Joint(host, steps).Some?
    requires H.Enabled(H.Exec(Joint(host, steps).value.handles).value, H.SendPost(h, true))
    ensures var r := R.Exec(host, Joint(host, steps).value.room).value;
      var joint := Joint(host, steps + [Call(H.SendPost(h, true), text)]);
      && (joint.Some? <==> r.main != R.Ended && |r.texts| < 64)
      && (joint.Some? ==>
            && R.Exec(host, joint.value.room).value.pushed == r.pushed + [text]
            && R.Exec(host, joint.value.room).value.texts == r.texts + [text])
  {
    hide Joint, H.Exec, H.Enabled, R.Exec, R.Enabled, R.Apply, H.Inv, Tied;
    var p := Joint(host, steps).value;
    TiedHolds(host, steps);
    H.InvHolds(p.handles);
    var r := R.Exec(host, p.room).value;
    ChannelOpen(H.Exec(p.handles).value, r, h);
    Pushing(r, text);
    CallPossible(p.handles, H.SendPost(h, true));
    PostJoins(host, steps, p, h, text);
    PushRuns(host, p.room, text);
  }

  lemma ChannelOpen(s: H.State, r: R.State, h: nat)
    requires H.Inv(s) && Tied(s, r) && H.Enabled(s, H.SendPost(h, true))
    ensures r.textsOpen
  {
    H.NoHolder(s.handles);
    hide H.References, H.Debts;
  }

  lemma Pushing(r: R.State, text: string)
    requires R.Valid(r) && r.textsOpen
    ensures R.Enabled(r, R.PushText(text)) <==> |r.texts| < 64
    ensures R.Enabled(r, R.PushText(text)) ==>
              R.Apply(r, R.PushText(text)) == r.(texts := r.texts + [text], pushed := r.pushed + [text])
  {
    hide R.LocalEnabled, R.Apply;
    if R.Enabled(r, R.PushText(text)) { PushEffect(r, text); }
  }

  lemma PushRuns(host: string, run: seq<R.Action>, text: string)
    requires R.Exec(host, run).Some?
    ensures var r := R.Exec(host, run).value; var t := R.Exec(host, run + [R.PushText(text)]);
      if R.Enabled(r, R.PushText(text)) then t == Some(R.Apply(r, R.PushText(text))) else t == None
  {
    hide R.Apply, R.Enabled;
    assert (run + [R.PushText(text)])[..|run|] == run;
  }

  lemma PostJoins(host: string, steps: seq<Step>, p: Pair, h: nat, text: string)
    requires Joint(host, steps) == Some(p) && H.Exec(p.handles + [H.SendPost(h, true)]).Some?
    ensures var joint := Joint(host, steps + [Call(H.SendPost(h, true), text)]);
      && (joint.Some? <==>
            R.Exec(host, p.room).value.main != R.Ended && R.Exec(host, p.room + [R.PushText(text)]).Some?)
      && (joint.Some? ==> joint.value.room == p.room + [R.PushText(text)])
  {
    hide H.Exec, R.Exec, Effects;
    PostEffect(H.Exec(p.handles).value, h, text);
    assert (steps + [Call(H.SendPost(h, true), text)])[..|steps|] == steps;
  }

  lemma PostEffect(s: H.State, h: nat, text: string)
    ensures Effects(s, H.SendPost(h, true), text) == [R.PushText(text)]
  {
  }

  /** The room is signalled if and only if shutdown was sent or every handle is gone; sent only after a
      call of `quit` or a drop that read a count of one. */
  lemma SignalledExactly(host: string, steps: seq<Step>)
    requires Joint(host, steps).Some?
    ensures var p := Joint(host, steps).value; var h := H.Exec(p.handles).value;
      && (R.Exec(host, p.room).value.signalled <==>
            h.signals == 1 || forall i :: 0 <= i < |h.handles| ==> h.handles[i] == H.Gone)
      && (h.signals == 1 ==> H.Asked(p.handles))
  {
    hide Joint, H.Exec, R.Exec, H.Inv, Tied, H.Asked, H.Debts;
    TiedHolds(host, steps);
    var p := Joint(host, steps).value;
    H.InvHolds(p.handles);
    H.SignalledOnce(p.handles);
    H.FlagOrPending(p.handles);
    TiedSignal(H.Exec(p.handles).value, R.Exec(host, p.room).value);
  }

  lemma TiedSignal(h: H.State, r: R.State)
    requires Tied(h, r) && H.Inv(h) && h.signals <= 1
    ensures r.signalled <==> h.signals == 1 || forall i :: 0 <= i < |h.handles| ==> h.handles[i] == H.Gone
    ensures h.signals == 1 ==> h.flag
  {
    hide H.References, H.Debts;
    H.NoHolder(h.handles);
  }

  /** Once every handle is gone, however the drops raced, the main loop has an arm to run that ends it, and
      the bias runs that one. */
  lemma AllGoneEnds(host: string, steps: seq<Step>)
    requires Joint(host, steps).Some?
    requires var h := H.Exec(Joint(host, steps).value.handles).value;
      forall i :: 0 <= i < |h.handles| ==> h.handles[i] == H.Gone
    ensures var r := R.Exec(host, Joint(host, steps).value.room).value;
      && r.signalled && !r.textsOpen
      && (r.main == R.Serving || r.main == R.Refused ==>
            && R.Enabled(r, R.MainClose) && Host.Biased(r) == Some(R.MainClose)
            && R.Apply(r, R.MainClose).main == R.Ended)
  {
    hide Joint, H.Exec, R.Exec, R.Enabled, R.Apply, Host.Biased;
    TiedHolds(host, steps);
    var p := Joint(host, steps).value;
    H.AllGoneWakes(p.handles);
    var r := R.Exec(host, p.room).value;
    if r.main == R.Serving || r.main == R.Refused { ClosingArm(r); }
  }

  lemma ClosingArm(r: R.State)
    requires R.Valid(r) && r.signalled && (r.main == R.Serving || r.main == R.Refused)
    ensures R.Enabled(r, R.MainClose) && Host.Biased(r) == Some(R.MainClose)
    ensures R.Apply(r, R.MainClose).main == R.Ended
  {
    RoomOrder.MainMoves(r, R.MainClose);
    hide R.Apply;
  }

  /** And from then on, with the bias kept, the loop takes at most one more turn, which ends it, and nothing
      is reported any more. */
  lemma AllGoneQuiets(host: string, steps: seq<Step>, more: seq<R.Action>)
    requires Joint(host, steps).Some?
    requires var h := H.Exec(Joint(host, steps).value.handles).value;
      forall i :: 0 <= i < |h.handles| ==> h.handles[i] == H.Gone
    requires R.Exec(host, Joint(host, steps).value.room + more).Some?
    requires Host.Obeys(host, Joint(host, steps).value.room + more)
    ensures var run := Joint(host, steps).value.room;
      var s, t := R.Exec(host, run).value, R.Exec(host, run + more).value;
      && Host.Turns(more) <= 1 && (Host.Turns(more) == 1 ==> t.main == R.Ended)
      && |s.attempts| <= |t.attempts| && Host.Quiet(t.attempts, |s.attempts|)
  {
    hide R.Exec, H.Exec, Joint, Host.Obeys, Host.Turns, Host.Quiet, R.Enabled, R.Apply;
    AllGoneEnds(host, steps);
    Host.OneTurnAfterSignal(host, Joint(host, steps).value.room, more);
  }
}
