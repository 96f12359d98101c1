/** Two peers with the same discriminator share one entry of the peer map, and the first to leave takes
    it away from the other. */
module RoomTwins {
  import opened Basics
  import opened Json
  import opened Room
  import opened RoomNonces
  import opened RoomPeers
  import opened RoomStall
  import Codecs
  import RoomLate
  import Wire

  /** A peer that has sent its 32 bytes and its name, right after entering the map. */
  predicate Entered(hello: Bytes, k: Conn) {
    && |hello| == HELLO && k.phase == Announcing && !k.broken && k.unsent == []
    && |k.input| >= HELLO && k.input[..HELLO] == hello
  }

  lemma Naming(host: string, run: seq<Action>, c: nat, hello: Bytes, name: string) returns (run': seq<Action>)
    requires |hello| == HELLO && Wire.EncodeMessage(SystemMessage(name)).Ok?
    requires Exec(host, run).Some? && c < |Exec(host, run).value.conns|
    requires Exec(host, run).value.conns[c] == Arrived(hello) && hello[..16] !in Exec(host, run).value.nonces
    requires !Locked(Exec(host, run).value.conns)
    ensures Exec(host, run').Some?
    ensures var s, t := Exec(host, run).value, Exec(host, run').value;
      && |t.conns| == |s.conns| && t.conns == s.conns[c := t.conns[c]] && t.nonces == s.nonces + {hello[..16]}
      && t.conns[c].phase == AwaitName && t.conns[c].taken == HELLO && t.conns[c].unsent == [] && !t.conns[c].broken
      && t.conns[c].input == hello + Wire.EncodeMessage(SystemMessage(name)).value
  {
    hide Exec, Wire.EncodeMessage, Wire.TakeFrame, Locked;
    var f := Wire.EncodeMessage(SystemMessage(name)).value;
    StepOf(host, run, CheckNonce(c), c);
    run' := run + [CheckNonce(c)];
    StepOf(host, run', Do(c, Acknowledge(true, true)), c);
    run' := run' + [Do(c, Acknowledge(true, true))];
    StepOf(host, run', Do(c, Receive(f)), c);
    run' := run' + [Do(c, Receive(f))];
  }

  lemma Entering(host: string, run: seq<Action>, c: nat, hello: Bytes, name: string) returns (run': seq<Action>)
    requires |hello| == HELLO && Wire.EncodeMessage(SystemMessage(name)).Ok?
    requires Exec(host, run).Some? && c < |Exec(host, run).value.conns|
    requires Exec(host, run).value.conns[c] == Arrived(hello) && hello[..16] !in Exec(host, run).value.nonces
    requires !Locked(Exec(host, run).value.conns)
    ensures Exec(host, run').Some?
    ensures var s, t := Exec(host, run).value, Exec(host, run').value;
      && |t.conns| == |s.conns| && t.conns == s.conns[c := t.conns[c]] && t.nonces == s.nonces + {hello[..16]}
      && Entered(hello, t.conns[c])
  {
    hide Exec, Wire.EncodeMessage, Wire.TakeFrame, Locked, Arrived, LocalStep, LocalEnabled, ConnAfter;
    run' := Naming(host, run, c, hello, name);
    run' := Registering(host, run', c, Exec(host, run').value.conns[c], hello, name);
  }

  lemma Registering(host: string, run: seq<Action>, c: nat, k: Conn, hello: Bytes, name: string)
    returns (run': seq<Action>)
    requires |hello| == HELLO && Wire.EncodeMessage(SystemMessage(name)).Ok?
    requires Exec(host, run).Some? && c < |Exec(host, run).value.conns| && Exec(host, run).value.conns[c] == k
    requires k.phase == AwaitName && k.taken == HELLO && k.unsent == [] && !k.broken
    requires k.input == hello + Wire.EncodeMessage(SystemMessage(name)).value
    ensures Exec(host, run').Some?
    ensures var s, t := Exec(host, run).value, Exec(host, run').value;
      && |t.conns| == |s.conns| && t.conns == s.conns[c := t.conns[c]] && t.nonces == s.nonces
      && Entered(hello, t.conns[c])
  {
    hide Exec, Wire.EncodeMessage, Wire.TakeFrame, ReadNameStep, Locked;
    assert k.input[HELLO..] == Wire.EncodeMessage(SystemMessage(name)).value + [];
    RoomLate.ReadingName(k, name, []);
    NameFields(k);
    StepOf(host, run, Do(c, ReadName), c);
    run' := run + [Do(c, ReadName)];
    StepOf(host, run', Insert(c), c);
    run' := run' + [Insert(c)];
  }

  /** An announced peer starts reading, writing, and goes. */
  lemma Going(host: string, run: seq<Action>, c: nat) returns (run': seq<Action>)
    requires Exec(host, run).Some? && c < |Exec(host, run).value.conns|
    requires var k := Exec(host, run).value.conns[c];
      k.phase == Announcing && !k.broken && k.unsent == [] && |k.input| >= HELLO
    ensures Exec(host, run').Some?
    ensures var s, t := Exec(host, run).value, Exec(host, run').value;
      && |t.conns| == |s.conns| && t.conns == s.conns[c := t.conns[c]]
      && t.conns[c].phase == Starting && t.conns[c].input == s.conns[c].input
  {
    hide Exec, NoticeFor, Id, Info;
    StepOf(host, run, Announce(c), c);
    run' := run + [Announce(c)];
    var n := |Exec(host, run').value.conns[c].unsent|;
    if n > 0 {
      StepOf(host, run', Do(c, Take(n)), c);
      run' := run' + [Do(c, Take(n))];
    }
    StepOf(host, run', Do(c, Notice), c);
    run' := run' + [Do(c, Notice)];
  }

  lemma Ending(host: string, run: seq<Action>, c: nat) returns (run': seq<Action>)
    requires Exec(host, run).Some? && c < |Exec(host, run).value.conns|
    requires Exec(host, run).value.conns[c].phase == Starting && |Exec(host, run).value.conns[c].input| >= HELLO
    ensures Exec(host, run').Some?
    ensures var s, t := Exec(host, run).value, Exec(host, run').value;
      && |t.conns| == |s.conns| && t.conns == s.conns[c := t.conns[c]]
      && t.conns[c].phase == Removing && t.conns[c].input == s.conns[c].input
  {
    hide Exec, Id, Info, LocalStep, LocalEnabled, ConnAfter;
    run' := BeginRunning(host, run, c);
    run' := Stopping(host, run', c);
  }

  lemma BeginRunning(host: string, run: seq<Action>, c: nat) returns (run': seq<Action>)
    requires Exec(host, run).Some? && c < |Exec(host, run).value.conns|
    requires Exec(host, run).value.conns[c].phase == Starting
    ensures Exec(host, run').Some?
    ensures var s, t := Exec(host, run).value, Exec(host, run').value;
      && |t.conns| == |s.conns| && t.conns == s.conns[c := t.conns[c]]
      && t.conns[c].phase == Running && t.conns[c].reader == Reading && t.conns[c].input == s.conns[c].input
  {
    hide Exec, Wire.TakeFrame, Id, Info;
    StepOf(host, run, Do(c, StartReader), c);
    run' := run + [Do(c, StartReader)];
    StepOf(host, run', Do(c, Subscribe), c);
    run' := run' + [Do(c, Subscribe)];
  }

  lemma Stopping(host: string, run: seq<Action>, c: nat) returns (run': seq<Action>)
    requires Exec(host, run).Some? && c < |Exec(host, run).value.conns|
    requires Exec(host, run).value.conns[c].phase == Running && Exec(host, run).value.conns[c].reader == Reading
    ensures Exec(host, run').Some?
    ensures var s, t := Exec(host, run).value, Exec(host, run').value;
      && |t.conns| == |s.conns| && t.conns == s.conns[c := t.conns[c]]
      && t.conns[c].phase == Removing && t.conns[c].input == s.conns[c].input
  {
    hide Exec, Wire.TakeFrame, Id, Info;
    StepOf(host, run, Do(c, ReaderEnds), c);
    run' := run + [Do(c, ReaderEnds)];
    StepOf(host, run', Do(c, Wake), c);
    run' := run' + [Do(c, Wake)];
  }

  /** For any name that encodes and any two hellos that differ in the nonce alone there is a run in which
      the second peer is between insert and remove and yet not in the map: the entry left with the first. */
  lemma TwinVanishes(host: string, one: Bytes, two: Bytes, name: string) returns (run: seq<Action>)
    requires |one| == HELLO && |two| == HELLO && one[..16] != two[..16] && one[16..] == two[16..]
    requires Wire.EncodeMessage(SystemMessage(name)).Ok?
    ensures Exec(host, run).Some? && |Exec(host, run).value.conns| == 2
    ensures var s := Exec(host, run).value;
      Registered(s.conns[1]) && Id(s.conns[1]) !in s.peers
  {
    hide Exec, Wire.EncodeMessage, Id, Info, Enabled, ConnAfter;
    LaunchOnly(host);
    run := Arriving(host, [Launch(true)], one);
    run := Arriving(host, run, two);
    run := Entering(host, run, 0, one, name);
    run := Entering(host, run, 1, two, name);
    run := Going(host, run, 0);
    run := Ending(host, run, 0);
    run := TakenOut(host, run, one, two);
  }

  lemma TakenOut(host: string, run: seq<Action>, one: Bytes, two: Bytes) returns (run': seq<Action>)
    requires |one| == HELLO && |two| == HELLO && one[16..] == two[16..]
    requires Exec(host, run).Some? && |Exec(host, run).value.conns| == 2
    requires var s := Exec(host, run).value;
      && s.conns[0].phase == Removing && |s.conns[0].input| >= HELLO && s.conns[0].input[..HELLO] == one
      && s.conns[1].phase == Announcing && |s.conns[1].input| >= HELLO && s.conns[1].input[..HELLO] == two
    ensures Exec(host, run').Some? && |Exec(host, run').value.conns| == 2
    ensures var s := Exec(host, run').value;
      Registered(s.conns[1]) && Id(s.conns[1]) !in s.peers
  {
    hide Exec, Codecs.ToBase58;
    SameId(Exec(host, run).value, one, two);
    hide Id;
    StepOf(host, run, Remove(0), 0);
    run' := run + [Remove(0)];
    ExecExtend(host, run, Remove(0));
    TouchStep(Exec(host, run).value, Remove(0), Id(Exec(host, run).value.conns[0]));
  }

  lemma SameId(s: State, one: Bytes, two: Bytes)
    requires |one| == HELLO && |two| == HELLO && one[16..] == two[16..] && |s.conns| == 2
    requires |s.conns[0].input| >= HELLO && s.conns[0].input[..HELLO] == one
    requires |s.conns[1].input| >= HELLO && s.conns[1].input[..HELLO] == two
    ensures Id(s.conns[0]) == Id(s.conns[1])
  {
    hide Codecs.ToBase58;
    assert Disc(s.conns[0]) == one[16..] && Disc(s.conns[1]) == two[16..];
  }
}
