/** The life of `RoomHandle` clones: `clone`, `send`, `invite`, `quit` and `drop` from any number of
    threads. A drop is not atomic: it reads the reference count, perhaps quits, and only then gives its
    reference back. */
module Handles {
  import opened Basics

  /** `Live(q, n)`: in use, with `q` calls of `quit` that have set the flag and still have to signal, and
      `n` calls of `send` that have seen the flag unset and still have to put their text into the channel.
      The others are the stages of a drop, which nothing else can overlap. */
  datatype Handle = Live(quits: nat, sends: nat) | WillSwap | WillSignal | WillRelease | Gone

  /** `count` is the reference count, `flag` the quit flag, `signals` how often shutdown was sent;
      `freed` once the shared part, and with it the sender of the shutdown signal, is gone. History: texts
      `posted` into the channel or `lost` at one already closed, invites `made`, calls `refused`. */
  datatype State = State(
    handles: seq<Handle>, count: nat, flag: bool, signals: nat, freed: bool,
    posted: nat, lost: nat, made: nat, refused: nat)

  const START := State([Live(0, 0)], 1, false, 0, false, 0, 0, 0, 0)

  datatype Action =
    | Clone(h: nat) | Quit(h: nat) | Signal(h: nat)
    | SendCheck(h: nat) | SendPost(h: nat, open: bool) | Invite(h: nat)
    | DropCheck(h: nat) | DropSwap(h: nat) | DropSignal(h: nat) | Release(h: nat)

  predicate Enabled(s: State, a: Action) {
    && a.h < |s.handles|
    && match a
       case Clone(h) => s.handles[h].Live?
       case Quit(h) => s.handles[h].Live?
       case Signal(h) => s.handles[h].Live? && s.handles[h].quits > 0
       case SendCheck(h) => s.handles[h].Live?
       case SendPost(h, _) => s.handles[h].Live? && s.handles[h].sends > 0
       case Invite(h) => s.handles[h].Live?
       case DropCheck(h) => s.handles[h] == Live(0, 0)
       case DropSwap(h) => s.handles[h] == WillSwap
       case DropSignal(h) => s.handles[h] == WillSignal
       case Release(h) => s.handles[h] == WillRelease && s.count > 0
  }

  function Put(s: State, h: nat, k: Handle): State
    requires h < |s.handles|
  {
    s.(handles := s.handles[h := k])
  }

  function Apply(s: State, a: Action): State
    requires Enabled(s, a)
  {
    match a
    case Clone(_) => s.(handles := s.handles + [Live(0, 0)], count := s.count + 1)
    case Quit(h) =>
      if s.flag then s else Put(s, h, s.handles[h].(quits := s.handles[h].quits + 1)).(flag := true)
    case Signal(h) => Put(s, h, s.handles[h].(quits := s.handles[h].quits - 1)).(signals := s.signals + 1)
    case SendCheck(h) =>
      if s.flag then s.(refused := s.refused + 1) else Put(s, h, s.handles[h].(sends := s.handles[h].sends + 1))
    case SendPost(h, open) =>
      var t := Put(s, h, s.handles[h].(sends := s.handles[h].sends - 1));
      if open then t.(posted := s.posted + 1) else t.(lost := s.lost + 1)
    case Invite(_) => if s.flag then s.(refused := s.refused + 1) else s.(made := s.made + 1)
    case DropCheck(h) => Put(s, h, if s.count == 1 then WillSwap else WillRelease)
    case DropSwap(h) => if s.flag then Put(s, h, WillRelease) else Put(s, h, WillSignal).(flag := true)
    case DropSignal(h) => Put(s, h, WillRelease).(signals := s.signals + 1)
    case Release(h) => Put(s, h, Gone).(count := s.count - 1, freed := s.count == 1)
  }

  function Exec(run: seq<Action>): (r: Option<State>) {
    if run == [] then Some(START)
    else match Exec(run[..|run| - 1])
      case None => None
      case Some(s) => if Enabled(s, run[|run| - 1]) then Some(Apply(s, run[|run| - 1])) else None
  }

  // ---- counting ----

  function Held(k: Handle): nat { if k == Gone then 0 else 1 }

  function Owed(k: Handle): nat {
    match k
    case Live(q, _) => q
    case WillSignal => 1
    case _ => 0
  }

  function References(hs: seq<Handle>): nat {
    if hs == [] then 0 else References(hs[..|hs| - 1]) + Held(hs[|hs| - 1])
  }

  function Debts(hs: seq<Handle>): nat {
    if hs == [] then 0 else Debts(hs[..|hs| - 1]) + Owed(hs[|hs| - 1])
  }

  lemma {:induction false} SumsAfter(hs: seq<Handle>, h: nat, k: Handle)
    requires h < |hs|
    ensures References(hs[h := k]) == References(hs) - Held(hs[h]) + Held(k)
    ensures Debts(hs[h := k]) == Debts(hs) - Owed(hs[h]) + Owed(k)
  {
    var n := |hs| - 1;
    if h == n {
      assert hs[h := k][..n] == hs[..n];
    } else {
      assert hs[h := k][..n] == hs[..n][h := k];
      SumsAfter(hs[..n], h, k);
    }
  }

  lemma SumsSnoc(hs: seq<Handle>, k: Handle)
    ensures References(hs + [k]) == References(hs) + Held(k) && Debts(hs + [k]) == Debts(hs) + Owed(k)
  {
    assert (hs + [k])[..|hs|] == hs;
  }

  lemma {:induction false} OneHolder(hs: seq<Handle>, h: nat, i: nat)
    requires h < |hs| && i < |hs| && hs[h] != Gone && hs[i] != Gone && h != i
    ensures References(hs) >= 2
  {
    SumsAfter(hs, h, Gone);
    SumsAfter(hs[h := Gone], i, Gone);
  }

  lemma {:induction false} NoHolder(hs: seq<Handle>)
    ensures References(hs) == 0 <==> forall h :: 0 <= h < |hs| ==> hs[h] == Gone
  {
    if hs != [] {
      var n := |hs| - 1;
      NoHolder(hs[..n]);
      if References(hs) == 0 {
        forall h | 0 <= h < |hs| ensures hs[h] == Gone {
          if h < n { assert hs[..n][h] == hs[h]; }
        }
      }
    }
  }

  // ---- the invariant ----

  predicate Quitting(k: Handle) { k == WillSwap || k == WillSignal }

  ghost predicate Inv(s: State) {
    && s.count == References(s.handles)
    && s.freed == (s.count == 0)
    && s.signals + Debts(s.handles) == (if s.flag then 1 else 0)
    && forall h :: 0 <= h < |s.handles| && Quitting(s.handles[h]) ==> s.count == 1
  }

  lemma CloneKeeps(s: State, h: nat)
    requires Inv(s) && Enabled(s, Clone(h))
    ensures Inv(Apply(s, Clone(h)))
  {
    SumsSnoc(s.handles, Live(0, 0));
    NoHolder(s.handles);
    forall i | 0 <= i < |s.handles| && Quitting(s.handles[i]) ensures false {
      OneHolder(s.handles, i, h);
    }
  }

  lemma ReleaseKeeps(s: State, h: nat)
    requires Inv(s) && Enabled(s, Release(h))
    ensures Inv(Apply(s, Release(h)))
  {
    SumsAfter(s.handles, h, Gone);
    forall i | 0 <= i < |s.handles| && i != h && Quitting(s.handles[i]) ensures false {
      OneHolder(s.handles, i, h);
    }
  }

  /** A step that changes one handle that stays: the books need only follow what it owes. */
  lemma PutKeeps(s: State, h: nat, t: State)
    requires Inv(s) && h < |s.handles| && |t.handles| == |s.handles| && t.handles == s.handles[h := t.handles[h]]
    requires t.count == s.count && t.freed == s.freed && s.handles[h] != Gone && t.handles[h] != Gone
    requires Quitting(t.handles[h]) ==> s.count == 1
    requires t.signals + Owed(t.handles[h]) + (if s.flag then 1 else 0)
          == s.signals + Owed(s.handles[h]) + (if t.flag then 1 else 0)
    ensures Inv(t)
  {
    SumsAfter(s.handles, h, t.handles[h]);
  }

  lemma InvStep(s: State, a: Action)
    requires Inv(s) && Enabled(s, a)
    ensures Inv(Apply(s, a))
  {
    hide References, Debts;
    if a.Clone? {
      CloneKeeps(s, a.h);
    } else if a.Release? {
      ReleaseKeeps(s, a.h);
    } else {
      PutKeeps(s, a.h, Apply(s, a));
    }
  }

  lemma {:induction false} InvHolds(run: seq<Action>)
    requires Exec(run).Some?
    ensures Inv(Exec(run).value)
  {
    if run == [] {
      assert [Live(0, 0)][..0] == [];
    } else {
      InvHolds(run[..|run| - 1]);
      InvStep(Exec(run[..|run| - 1]).value, run[|run| - 1]);
    }
  }

  // ---- the theorems ----

  /** A drop that goes on to quit is the last holder: every other handle is gone, so no message can be
      on its way through another one. */
  lemma QuittingDropIsLast(run: seq<Action>, h: nat, i: nat)
    requires Exec(run).Some? && h < |Exec(run).value.handles| && i < |Exec(run).value.handles| && i != h
    requires Quitting(Exec(run).value.handles[h])
    ensures Exec(run).value.handles[i] == Gone
  {
    InvHolds(run);
    var s := Exec(run).value;
    if s.handles[i] != Gone { OneHolder(s.handles, h, i); }
  }

  /** Shutdown is sent at most once; and when no call is between setting the flag and sending it, it has
      been sent exactly if the flag is set. */
  lemma SignalledOnce(run: seq<Action>)
    requires Exec(run).Some?
    ensures Exec(run).value.signals <= 1
    ensures Debts(Exec(run).value.handles) == 0 ==> (Exec(run).value.signals == 1 <==> Exec(run).value.flag)
  {
    InvHolds(run);
  }

  /** Once every handle is gone the listeners wake: the sender is gone as well, and if the flag is set
      the signal was sent before. */
  lemma AllGoneWakes(run: seq<Action>)
    requires Exec(run).Some? && forall h :: 0 <= h < |Exec(run).value.handles| ==> Exec(run).value.handles[h] == Gone
    ensures Exec(run).value.freed
    ensures Exec(run).value.flag ==> Exec(run).value.signals == 1
  {
    InvHolds(run);
    var s := Exec(run).value;
    NoHolder(s.handles);
    NoDebts(s.handles);
  }

  lemma {:induction false} NoDebts(hs: seq<Handle>)
    requires forall h :: 0 <= h < |hs| ==> hs[h] == Gone
    ensures Debts(hs) == 0
  {
    if hs != [] { NoDebts(hs[..|hs| - 1]); }
  }

  /** Some call asked for shutdown: a `quit`, or a drop that read a count of one. */
  predicate Asked(run: seq<Action>) {
    run != [] && (
      || Asked(run[..|run| - 1])
      || run[|run| - 1].Quit?
      || (run[|run| - 1].DropCheck? && Exec(run[..|run| - 1]).Some? && Exec(run[..|run| - 1]).value.count == 1))
  }

  lemma {:induction false} FlagOrPending(run: seq<Action>)
    requires Exec(run).Some?
    ensures Asked(run) <==>
      Exec(run).value.flag || exists h :: 0 <= h < |Exec(run).value.handles| && Exec(run).value.handles[h] == WillSwap
  {
    if run != [] {
      var before, a := run[..|run| - 1], run[|run| - 1];
      FlagOrPending(before);
      var s, s' := Exec(before).value, Exec(run).value;
      forall h | 0 <= h < |s'.handles| && s'.handles[h] == WillSwap && !(a.DropCheck? && a.h == h)
        ensures h < |s.handles| && s.handles[h] == WillSwap
      {
      }
      if h :| 0 <= h < |s.handles| && s.handles[h] == WillSwap && !(a.DropSwap? && a.h == h) {
        assert s'.handles[h] == WillSwap;
      }
      if a.DropCheck? && s.count == 1 {
        assert s'.handles[a.h] == WillSwap;
      }
    }
  }

  /** When all handles are gone, the quit flag is set if and only if somebody called `quit` or some drop
      read a count of one. Two drops that both read two leave it unset, and then only the closed sender
      ends the room. */
  lemma FlagExactly(run: seq<Action>)
    requires Exec(run).Some? && forall h :: 0 <= h < |Exec(run).value.handles| ==> Exec(run).value.handles[h] == Gone
    ensures Exec(run).value.flag <==> Asked(run)
  {
    FlagOrPending(run);
  }

  /** The race is real: two drops that pass the count check together never set the flag. */
  lemma RacingDrops()
    ensures var run := [Clone(0), DropCheck(0), DropCheck(1), Release(0), Release(1)];
            Exec(run).Some? && Exec(run).value == START.(handles := [Gone, Gone], count := 0, freed := true)
  {
    var both := START.(handles := [Live(0, 0), Live(0, 0)], count := 2);
    var one := both.(handles := [WillRelease, Live(0, 0)]);
    var two := both.(handles := [WillRelease, WillRelease]);
    var last := both.(handles := [Gone, WillRelease], count := 1);
    var none := both.(handles := [Gone, Gone], count := 0, freed := true);
    var r1 := [] + [Clone(0)];
    var r2 := r1 + [DropCheck(0)];
    var r3 := r2 + [DropCheck(1)];
    var r4 := r3 + [Release(0)];
    var r5 := r4 + [Release(1)];
    Runs([], Clone(0), START, both);
    Runs(r1, DropCheck(0), both, one);
    Runs(r2, DropCheck(1), one, two);
    Runs(r3, Release(0), two, last);
    Runs(r4, Release(1), last, none);
    assert r5 == [Clone(0), DropCheck(0), DropCheck(1), Release(0), Release(1)];
  }

  lemma Runs(run: seq<Action>, a: Action, s: State, t: State)
    requires Exec(run) == Some(s) && Enabled(s, a) && Apply(s, a) == t
    ensures Exec(run + [a]) == Some(t)
  {
    assert (run + [a])[..|run|] == run;
  }

  // ---- sends and invites ----

  function InFlight(k: Handle): nat { if k.Live? then k.sends else 0 }

  /** The sends that have seen the flag unset and have not ended. */
  function Sending(hs: seq<Handle>): nat {
    if hs == [] then 0 else Sending(hs[..|hs| - 1]) + InFlight(hs[|hs| - 1])
  }

  lemma {:induction false} SendingAfter(hs: seq<Handle>, h: nat, k: Handle)
    requires h < |hs|
    ensures Sending(hs[h := k]) == Sending(hs) - InFlight(hs[h]) + InFlight(k)
  {
    var n := |hs| - 1;
    if h == n {
      assert hs[h := k][..n] == hs[..n];
    } else {
      assert hs[h := k][..n] == hs[..n][h := k];
      SendingAfter(hs[..n], h, k);
    }
  }

  /** The calls of `send` and `invite` that start among these steps. */
  function Calls(run: seq<Action>): nat {
    if run == [] then 0
    else Calls(run[..|run| - 1]) + (if run[|run| - 1].SendCheck? || run[|run| - 1].Invite? then 1 else 0)
  }

  lemma SendStep(s: State, a: Action)
    requires Enabled(s, a) && s.flag
    ensures var t := Apply(s, a);
      && t.flag && t.posted + t.lost + Sending(t.handles) == s.posted + s.lost + Sending(s.handles)
      && t.made == s.made && s.posted <= t.posted && s.lost <= t.lost
      && t.refused == s.refused + (if a.SendCheck? || a.Invite? then 1 else 0)
  {
    var t := Apply(s, a);
    if a.Clone? {
      assert t.handles[..|s.handles|] == s.handles;
    } else {
      SendingAfter(s.handles, a.h, t.handles[a.h]);
      assert t.handles == s.handles[a.h := t.handles[a.h]];
    }
  }

  /** From the moment the flag is set every `send` and `invite` that starts is refused: no invite is made,
      and the only texts that still come are those of sends that had passed their check before. */
  lemma {:induction false} ClosedForGood(run: seq<Action>, more: seq<Action>)
    requires Exec(run).Some? && Exec(run + more).Some? && Exec(run).value.flag
    ensures var s, t := Exec(run).value, Exec(run + more).value;
      && t.flag && t.made == s.made && t.refused == s.refused + Calls(more)
      && t.posted + t.lost + Sending(t.handles) == s.posted + s.lost + Sending(s.handles)
      && s.posted <= t.posted && s.lost <= t.lost
  {
    hide Enabled, Apply, Sending;
    if more == [] {
      assert run + more == run;
    } else {
      var m := more[..|more| - 1];
      assert (run + more)[..|run + more| - 1] == run + m;
      ClosedForGood(run, m);
      SendStep(Exec(run + m).value, more[|more| - 1]);
    }
  }

  lemma {:induction false} NobodySends(hs: seq<Handle>)
    requires forall h :: 0 <= h < |hs| ==> !hs[h].Live?
    ensures Sending(hs) == 0
  {
    if hs != [] { NobodySends(hs[..|hs| - 1]); }
  }

  /** The drop that quits cuts no send short: when it sets the flag none is in flight, so nothing is
      posted or lost after it. */
  lemma LastDropCutsNothing(run: seq<Action>, h: nat, more: seq<Action>)
    requires Exec(run).Some? && h < |Exec(run).value.handles| && Exec(run).value.handles[h] == WillSignal
    requires Exec(run + more).Some?
    ensures Exec(run + more).value.posted == Exec(run).value.posted
    ensures Exec(run + more).value.lost == Exec(run).value.lost
  {
    var s := Exec(run).value;
    forall i | 0 <= i < |s.handles| ensures !s.handles[i].Live? {
      if i != h { QuittingDropIsLast(run, h, i); }
    }
    NobodySends(s.handles);
    SwappedSet(run, h);
    ClosedForGood(run, more);
  }

  /** A drop about to signal has set the flag. */
  lemma SwappedSet(run: seq<Action>, h: nat)
    requires Exec(run).Some? && h < |Exec(run).value.handles| && Exec(run).value.handles[h] == WillSignal
    ensures Exec(run).value.flag
  {
    InvHolds(run);
    hide Exec;
    Owing(Exec(run).value, h);
  }

  lemma Owing(s: State, h: nat)
    requires Inv(s) && h < |s.handles| && s.handles[h] == WillSignal
    ensures s.flag
  {
    hide References, Debts;
    SumsAfter(s.handles, h, Gone);
  }

  // ---- while the room is open ----

  function Sends(run: seq<Action>): nat {
    if run == [] then 0 else Sends(run[..|run| - 1]) + (if run[|run| - 1].SendCheck? then 1 else 0)
  }

  function Invites(run: seq<Action>): nat {
    if run == [] then 0 else Invites(run[..|run| - 1]) + (if run[|run| - 1].Invite? then 1 else 0)
  }

  lemma OpenStep(s: State, a: Action)
    requires Enabled(s, a) && !Apply(s, a).flag
    ensures !s.flag
    ensures var t := Apply(s, a);
      && t.refused == s.refused && t.made == s.made + (if a.Invite? then 1 else 0)
      && t.posted + t.lost + Sending(t.handles)
         == s.posted + s.lost + Sending(s.handles) + (if a.SendCheck? then 1 else 0)
  {
    var t := Apply(s, a);
    if a.Clone? {
      assert t.handles[..|s.handles|] == s.handles;
    } else {
      SendingAfter(s.handles, a.h, t.handles[a.h]);
      assert t.handles == s.handles[a.h := t.handles[a.h]];
    }
  }

  /** As long as nobody has asked for shutdown no call is refused: every invite has been made, and every send
      is posted, lost at a channel already closed, or still on its way. */
  lemma {:induction false} OpenTillThen(run: seq<Action>)
    requires Exec(run).Some? && !Exec(run).value.flag
    ensures var s := Exec(run).value;
      && s.refused == 0 && s.made == Invites(run) && s.posted + s.lost + Sending(s.handles) == Sends(run)
  {
    hide Enabled, Apply, Sending;
    if run == [] {
      NobodySendsYet();
    } else {
      var before := run[..|run| - 1];
      OpenStep(Exec(before).value, run[|run| - 1]);
      OpenTillThen(before);
    }
  }

  lemma NobodySendsYet()
    ensures Sending(START.handles) == 0
  {
    assert START.handles[..0] == [];
  }

  /** A send that is checked before the flag can post its text, also if the flag is set in between. */
  lemma SendPosts(s: State, h: nat, quitter: nat)
    requires h < |s.handles| && s.handles[h].Live? && !s.flag
    requires quitter < |s.handles| && s.handles[quitter].Live?
    ensures Enabled(s, SendCheck(h))
    ensures var t := Apply(s, SendCheck(h));
      && Enabled(t, SendPost(h, true)) && Apply(t, SendPost(h, true)).posted == s.posted + 1
      && Enabled(t, Quit(quitter))
      && (var u := Apply(t, Quit(quitter));
          u.flag && Enabled(u, SendPost(h, true)) && Apply(u, SendPost(h, true)).posted == s.posted + 1)
  {
  }
}
