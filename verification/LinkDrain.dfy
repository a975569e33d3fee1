/**
 A connection on which nothing of a session is lost: when everything has been written and read,
 the coordinator stands at the daemon's last number, in whatever order the producers wrote.
 */
module LinkDrain {
  import opened Base
  import opened RegistrySpec
  import opened IngestSpec
  import opened MuxSpec
  import opened Link
  import opened LinkGate
  import opened LinkHandshake

  /** Known, or announced on the wire before anything else about its numbers. */
  ghost predicate Promised(wire: seq<DaemonFrame>, known: bool, id: string) {
    known ||
    exists j :: 0 <= j < |wire| && Announces(wire[j], id) && forall k :: 0 <= k < j ==> NumberFor(wire[k], id).None?
  }

  function Top(s: Net, id: string): nat {
    |AllocsOf(s, id)|
  }

  ghost predicate Brings(fs: seq<DaemonFrame>, id: string, n: int) {
    exists fr :: fr in fs && NumberFor(fr, id).Some? && NumberFor(fr, id).value == n
  }

  /** The last number of session `id` has been read, or is on the wire, or about to be written. */
  ghost predicate Carries(s: Net, id: string) {
    && s.up && s.reading && id !in s.reused
    && (GateOf(s.coord.reg, id) == Gate(true, Top(s, id)) || Brings(s.wire, id, Top(s, id)) ||
        Brings(s.held, id, Top(s, id)))
    && Promised(s.wire, id in s.coord.reg.m, id)
    && (forall fr :: fr in s.wire || fr in s.held ==> !Restarts(fr, id))
  }

  /** Nothing of session `id` gets lost, and it is not started afresh. */
  ghost predicate Faithful(s: Net, step: Step, id: string)
    requires Enabled(s, step)
  {
    && KeepsConnection(step, s.conn) && !step.NoticeDown?
    && (step.Build? ==> !Restarts(step.fr, id))
    && (step.WriteFails? ==> NumberFor(s.held[step.i], id).None?)
    && (step.TakeNumber? && step.id == id ==> id !in s.dropped)
  }

  // ---------------------------------------------------------------------------------------------
  // The start: a handshake that announces the session
  // ---------------------------------------------------------------------------------------------

  lemma FirstResume(mux: Mux, ids: seq<string>, machineID: string, id: string)
    requires id in ids && forall i :: 0 <= i < |ids| ==> Peek(mux, ids[i]) < INT64_END
    ensures Promised(Greeting(mux, machineID, ids), false, id)
    ensures Brings(Greeting(mux, machineID, ids), id, Peek(mux, id))
  {
    var j := IndexOf(ids, id);
    var wire := Greeting(mux, machineID, ids);
    FirstIndex(ids, id);
    GreetingAt(mux, machineID, ids, j);
    assert wire[1 + j] in wire && Announces(wire[1 + j], id);
    forall k | 0 <= k < 1 + j ensures NumberFor(wire[k], id).None? {
      if k > 0 { GreetingAt(mux, machineID, ids, k - 1); }
    }
  }

  lemma {:induction false} FirstIndex(ids: seq<string>, id: string)
    requires id in ids
    ensures forall k :: 0 <= k < IndexOf(ids, id) ==> ids[k] != id
  {
    if ids[0] != id {
      FirstIndex(ids[1..], id);
      forall k | 0 <= k < IndexOf(ids, id) ensures ids[k] != id {
        if k > 0 { assert ids[k] == ids[1..][k - 1]; }
      }
    }
  }

  lemma NoStartInGreeting(mux: Mux, ids: seq<string>, machineID: string, id: string)
    requires forall i :: 0 <= i < |ids| ==> Peek(mux, ids[i]) < INT64_END
    ensures forall fr :: fr in Greeting(mux, machineID, ids) ==> !Restarts(fr, id)
  {
    var wire := Greeting(mux, machineID, ids);
    forall k | 0 <= k < |wire| ensures !Restarts(wire[k], id) {
      if k > 0 { GreetingAt(mux, machineID, ids, k - 1); }
    }
  }

  /** A handshake alone makes up for everything lost before. */
  lemma ConnectCarries(s: Net, machineID: string, ids: seq<string>, id: string)
    requires Sound(s) && Enabled(s, Connect(machineID, ids)) && id in ids && id !in s.dropped
    requires forall fr :: fr in s.held ==> !Restarts(fr, id)
    ensures Carries(Do(s, Connect(machineID, ids)), id)
  {
    FirstResume(s.mux, ids, machineID, id);
    NoStartInGreeting(s.mux, ids, machineID, id);
  }

  // ---------------------------------------------------------------------------------------------
  // Taking and writing
  // ---------------------------------------------------------------------------------------------

  lemma BringsMore(fs: seq<DaemonFrame>, fs': seq<DaemonFrame>, id: string, n: int)
    requires Brings(fs, id, n) && forall fr :: fr in fs && NumberFor(fr, id).Some? ==> fr in fs'
    ensures Brings(fs', id, n)
  {
  }

  lemma PromisedAppended(wire: seq<DaemonFrame>, fr: DaemonFrame, known: bool, id: string)
    requires Promised(wire, known, id)
    ensures Promised(wire + [fr], known, id)
  {
    if !known {
      var j :| 0 <= j < |wire| && Announces(wire[j], id) && forall k :: 0 <= k < j ==> NumberFor(wire[k], id).None?;
      assert (wire + [fr])[j] == wire[j];
      assert forall k :: 0 <= k < j ==> (wire + [fr])[k] == wire[k];
    }
  }

  lemma TakenTop(s: Net, id: string, body: Body)
    requires Counted(s) && Enabled(s, TakeNumber(id, body)) && id !in s.dropped && id !in s.reused
    ensures Top(Do(s, TakeNumber(id, body)), id) == Peek(s.mux, id) + 1
    ensures NumberFor(Framed(id, Peek(s.mux, id) + 1, body), id) == Some(Peek(s.mux, id) + 1)
  {
  }

  lemma TakeOwnCarries(s: Net, body: Body, id: string)
    requires Sound(s) && Carries(s, id) && Enabled(s, TakeNumber(id, body)) && id !in s.dropped
    ensures Carries(Do(s, TakeNumber(id, body)), id)
  {
    var fr := Framed(id, Peek(s.mux, id) + 1, body);
    FramedTicket(id, Peek(s.mux, id) + 1, body, id);
    TakenTop(s, id, body);
    assert fr in s.held + [fr];
  }

  lemma TakeOtherCarries(s: Net, k: string, body: Body, id: string)
    requires Carries(s, id) && Enabled(s, TakeNumber(k, body)) && k != id
    ensures Carries(Do(s, TakeNumber(k, body)), id)
  {
    var fr := Framed(k, Peek(s.mux, k) + 1, body);
    FramedTicket(k, Peek(s.mux, k) + 1, body, id);
    if Brings(s.held, id, Top(s, id)) { BringsMore(s.held, s.held + [fr], id, Top(s, id)); }
  }

  lemma BuildCarries(s: Net, fr: DaemonFrame, id: string)
    requires Carries(s, id) && Enabled(s, Build(fr)) && !Restarts(fr, id)
    ensures Carries(Do(s, Build(fr)), id)
  {
    if Brings(s.held, id, Top(s, id)) { BringsMore(s.held, s.held + [fr], id, Top(s, id)); }
  }

  lemma WithoutOne(fs: seq<DaemonFrame>, i: nat)
    requires i < |fs|
    ensures forall fr :: fr in Without(fs, i) ==> fr in fs
    ensures forall fr :: fr in fs && fr != fs[i] ==> fr in Without(fs, i)
  {
    var w := Without(fs, i);
    forall fr | fr in fs && fr != fs[i] ensures fr in w {
      var k :| 0 <= k < |fs| && fs[k] == fr;
      assert w[if k < i then k else k - 1] == fr;
    }
  }

  lemma WriteCarries(s: Net, i: nat, id: string)
    requires Carries(s, id) && Enabled(s, Write(i))
    ensures Carries(Do(s, Write(i)), id)
  {
    var s', fr, n := Do(s, Write(i)), s.held[i], Top(s, id);
    WithoutOne(s.held, i);
    PromisedAppended(s.wire, fr, id in s.coord.reg.m, id);
    if Brings(s.wire, id, n) {
      BringsMore(s.wire, s'.wire, id, n);
    } else if Brings(s.held, id, n) {
      var f :| f in s.held && NumberFor(f, id).Some? && NumberFor(f, id).value == n;
      assert f in s'.held || f in s'.wire;
      assert Brings(s'.held, id, n) || Brings(s'.wire, id, n);
    }
  }

  lemma FailCarries(s: Net, i: nat, id: string)
    requires Carries(s, id) && Enabled(s, WriteFails(i)) && NumberFor(s.held[i], id).None?
    ensures Carries(Do(s, WriteFails(i)), id)
  {
    WithoutOne(s.held, i);
    if Brings(s.held, id, Top(s, id)) { BringsMore(s.held, Without(s.held, i), id, Top(s, id)); }
  }

  // ---------------------------------------------------------------------------------------------
  // Reading
  // ---------------------------------------------------------------------------------------------

  lemma ReadRest(wire: seq<DaemonFrame>, g: Gate, id: string)
    requires wire != [] && Promised(wire, g.known, id)
    ensures Promised(wire[1..], Read(g, wire[0], id).known, id)
    ensures NumberFor(wire[0], id).Some? ==> g.known || Announces(wire[0], id)
  {
    if !g.known && NumberFor(wire[0], id).None? {
      var j :| 0 <= j < |wire| && Announces(wire[j], id) && forall k :: 0 <= k < j ==> NumberFor(wire[k], id).None?;
      assert wire[1..][j - 1] == wire[j];
      assert forall k :: 0 <= k < j - 1 ==> wire[1..][k] == wire[k + 1];
    }
  }

  lemma ReadTop(g: Gate, fr: DaemonFrame, id: string, top: nat)
    requires g.last <= top && !Restarts(fr, id) && (NumberFor(fr, id).Some? ==> g.known || Announces(fr, id))
    requires NumberFor(fr, id).Some? ==> NumberFor(fr, id).value <= top
    ensures g == Gate(true, top) ==> Read(g, fr, id) == Gate(true, top)
    ensures NumberFor(fr, id) == Some(top) ==> Read(g, fr, id) == Gate(true, top)
  {
  }

  lemma DeliverCarries(s: Net, env: Env, id: string)
    requires Sound(s) && Enabled(s, Deliver(env)) && Carries(s, id)
    ensures Carries(Do(s, Deliver(env)), id)
  {
    var s', fr := Do(s, Deliver(env)), s.wire[0];
    OneRead(s, env, id);
    ReadRest(s.wire, GateOf(s.coord.reg, id), id);
    assert fr in s.wire;
    ReadTop(GateOf(s.coord.reg, id), fr, id, Top(s, id));
    if Brings(s.wire, id, Top(s, id)) && NumberFor(fr, id) != Some(Top(s, id)) {
      var f :| f in s.wire && NumberFor(f, id).Some? && NumberFor(f, id).value == Top(s, id);
      assert f in s'.wire;
      assert Brings(s'.wire, id, Top(s, id));
    }
  }

  lemma StepCarries(s: Net, step: Step, id: string)
    requires Sound(s) && Enabled(s, step) && Carries(s, id) && Faithful(s, step, id)
    ensures Carries(Do(s, step), id)
  {
    match step {
      case TakeNumber(k, body) => if k == id { TakeOwnCarries(s, body, id); } else { TakeOtherCarries(s, k, body, id); }
      case Build(fr) => BuildCarries(s, fr, id);
      case Write(i) => WriteCarries(s, i, id);
      case WriteFails(i) => FailCarries(s, i, id);
      case Deliver(env) => DeliverCarries(s, env, id);
      case Forget(_) =>
      case Closed(_, _) => NoRead(s, step, id);
      case Touched(_, _) => NoRead(s, step, id);
    }
  }

  // ---------------------------------------------------------------------------------------------
  // Runs
  // ---------------------------------------------------------------------------------------------

  /** From the handshake in step `a` up to step `i`, nothing of the session gets lost. */
  ghost predicate LosesNothing(trace: seq<Net>, steps: seq<Step>, a: nat, i: nat, id: string)
    requires |trace| == |steps| + 1 && a < i < |trace|
    requires forall k :: 0 <= k < |steps| ==> Enabled(trace[k], steps[k])
  {
    && steps[a].Connect? && id in steps[a].ids && id !in trace[a].dropped
    && (forall fr :: fr in trace[a].held ==> !Restarts(fr, id))
    && (forall k :: a < k < i ==> Faithful(trace[k], steps[k], id))
  }

  lemma {:induction false} RunCarries(trace: seq<Net>, steps: seq<Step>, cap: int, floor: int, a: nat, i: nat,
                                      id: string)
    requires IsRun(trace, steps, cap, floor) && 0 < floor <= cap && a < i < |trace|
    requires LosesNothing(trace, steps, a, i, id)
    ensures Carries(trace[i], id)
    decreases i
  {
    RunSound(trace, steps, cap, floor, i - 1);
    if i == a + 1 {
      ConnectCarries(trace[a], steps[a].machineID, steps[a].ids, id);
    } else {
      RunCarries(trace, steps, cap, floor, a, i - 1, id);
      StepCarries(trace[i - 1], steps[i - 1], id);
    }
  }

  /**
   On every run from the start: after a handshake that announced the session, with producers taking
   numbers and writing in any order and other sessions losing what they may, whenever nothing of
   the session waits to be written or read the coordinator knows it and stands exactly at its last
   number taken. This goes on to hold after its end, until it takes a number again.
   */
  lemma DrainedLinkIsInSync(trace: seq<Net>, steps: seq<Step>, cap: int, floor: int, a: nat, i: nat, id: string)
    requires IsRun(trace, steps, cap, floor) && 0 < floor <= cap && a < i < |trace|
    requires LosesNothing(trace, steps, a, i, id)
    requires forall fr :: fr in trace[i].wire || fr in trace[i].held ==> NumberFor(fr, id).None?
    ensures GateOf(trace[i].coord.reg, id) == Gate(true, Top(trace[i], id))
    ensures id !in trace[i].dropped ==> Top(trace[i], id) == Peek(trace[i].mux, id)
  {
    RunCarries(trace, steps, cap, floor, a, i, id);
    RunSound(trace, steps, cap, floor, i);
  }
}
