/** Runs of the link from its start: what a handshake achieves, and which frames get through. */
module LinkHandshake {
  import opened IngestSpec
  import opened MuxSpec
  import opened Link
  import opened LinkGate
  import IngestRuns

  /** No number anywhere is beyond the last one taken. */
  ghost predicate Bounded(s: Net) {
    && s.reused <= s.dropped
    && (forall id :: id in s.dropped && id !in s.reused ==> Peek(s.mux, id) == 0)
    && (forall id :: id !in s.reused ==> LastIn(s.coord.reg, id) <= |AllocsOf(s, id)|)
    && (forall fr, id :: fr in s.wire && id !in s.reused && NumberFor(fr, id).Some? ==>
          NumberFor(fr, id).value <= |AllocsOf(s, id)|)
  }

  lemma GenuineBounded(s: Net, fr: DaemonFrame, id: string)
    requires Genuine(s, fr) && id !in s.reused && Ticket(fr).Some? && NumberFor(fr, id).Some?
    ensures NumberFor(fr, id).value <= |AllocsOf(s, id)|
  {
  }

  lemma TakeBounded(s: Net, id: string, body: Body)
    requires Inv(s) && Bounded(s) && Enabled(s, TakeNumber(id, body))
    ensures Bounded(Do(s, TakeNumber(id, body)))
  {
    var s' := Do(s, TakeNumber(id, body));
    forall k | k !in s'.reused ensures |AllocsOf(s, k)| <= |AllocsOf(s', k)| {
    }
  }

  lemma WriteBounded(s: Net, i: nat)
    requires Inv(s) && Bounded(s) && Enabled(s, Write(i)) && forall fr :: fr in s.held ==> !fr.SessionResume?
    ensures Bounded(Do(s, Write(i)))
  {
    var s', f := Do(s, Write(i)), s.held[i];
    forall fr, id | fr in s'.wire && id !in s'.reused && NumberFor(fr, id).Some?
      ensures NumberFor(fr, id).value <= |AllocsOf(s', id)|
    {
      if fr == f { GenuineBounded(s, f, id); }
    }
  }

  /** A resume brings the number its session has reached, and no other frame of a greeting any. */
  lemma GreetingNumbers(mux: Mux, machineID: string, ids: seq<string>, fr: DaemonFrame, id: string)
    requires forall i :: 0 <= i < |ids| ==> Peek(mux, ids[i]) < INT64_END
    requires fr in [MachineRegister(machineID)] + Resumes(mux, ids) && NumberFor(fr, id).Some?
    ensures NumberFor(fr, id).value == Peek(mux, id)
  {
    var wire := [MachineRegister(machineID)] + Resumes(mux, ids);
    var k :| 0 <= k < |wire| && wire[k] == fr;
    assert k > 0 && fr == Resumes(mux, ids)[k - 1];
  }

  lemma ConnectBounded(s: Net, machineID: string, ids: seq<string>)
    requires Inv(s) && Bounded(s) && Enabled(s, Connect(machineID, ids))
    ensures Bounded(Do(s, Connect(machineID, ids)))
  {
    var s' := Do(s, Connect(machineID, ids));
    forall fr, id | fr in s'.wire && id !in s'.reused && NumberFor(fr, id).Some?
      ensures NumberFor(fr, id).value <= |AllocsOf(s', id)|
    {
      GreetingNumbers(s.mux, machineID, ids, fr, id);
    }
  }

  lemma DeliverBounded(s: Net, env: Env)
    requires Inv(s) && Gated(s) && Bounded(s) && Enabled(s, Deliver(env))
    ensures Bounded(Do(s, Deliver(env)))
  {
    var s' := Do(s, Deliver(env));
    forall id | id !in s.reused ensures LastIn(s'.coord.reg, id) <= |AllocsOf(s', id)| {
      DeliverLast(s, env, id);
    }
  }

  lemma DeliverLast(s: Net, env: Env, id: string)
    requires Inv(s) && Gated(s) && Bounded(s) && Enabled(s, Deliver(env)) && id !in s.reused
    ensures LastIn(Do(s, Deliver(env)).coord.reg, id) <= |AllocsOf(s, id)|
  {
    OneRead(s, env, id);
    assert s.wire[0] in s.wire;
    ReadBounded(GateOf(s.coord.reg, id), s.wire[0], id, |AllocsOf(s, id)|);
  }

  lemma ReadBounded(g: Gate, fr: DaemonFrame, id: string, top: nat)
    requires g.last <= top && (NumberFor(fr, id).Some? ==> NumberFor(fr, id).value <= top)
    ensures Read(g, fr, id).last <= top
  {
  }

  lemma StepBounded(s: Net, step: Step)
    requires Inv(s) && Gated(s) && Bounded(s) && Enabled(s, step) && forall fr :: fr in s.held ==> !fr.SessionResume?
    ensures Bounded(Do(s, step))
  {
    match step {
      case TakeNumber(id, body) => TakeBounded(s, id, body);
      case Write(i) => WriteBounded(s, i);
      case Connect(machineID, ids) => ConnectBounded(s, machineID, ids);
      case Deliver(env) => DeliverBounded(s, env);
      case Closed(c, now) => IngestRuns.CloseKeepsNumbers(s.coord, c, now);
      case Touched(k, now) => IngestRuns.TouchKeepsNumbers(s.coord.reg, k, now);
      case _ =>
    }
  }

  /** Everything kept on every run. */
  ghost predicate Sound(s: Net) {
    Inv(s) && Gated(s) && Bounded(s) && forall fr :: fr in s.held ==> !fr.SessionResume?
  }

  lemma StepSound(s: Net, step: Step)
    requires Sound(s) && Enabled(s, step)
    ensures Sound(Do(s, step))
  {
    StepKeeps(s, step);
    GatedKeeps(s, step);
    StepBounded(s, step);
    HeldSound(s, step);
  }

  lemma HeldSound(s: Net, step: Step)
    requires Enabled(s, step) && forall fr :: fr in s.held ==> !fr.SessionResume?
    ensures forall fr :: fr in Do(s, step).held ==> !fr.SessionResume?
  {
  }

  lemma StartSound(cap: int, floor: int)
    requires 0 < floor <= cap
    ensures Sound(Start(cap, floor))
  {
    StartInv(cap, floor);
  }

  lemma {:induction false} RunSound(trace: seq<Net>, steps: seq<Step>, cap: int, floor: int, i: nat)
    requires IsRun(trace, steps, cap, floor) && 0 < floor <= cap && i < |trace|
    ensures Sound(trace[i])
  {
    if i == 0 {
      StartSound(cap, floor);
    } else {
      RunSound(trace, steps, cap, floor, i - 1);
      StepSound(trace[i - 1], steps[i - 1]);
    }
  }

  // ---------------------------------------------------------------------------------------------
  // The frames of a handshake
  // ---------------------------------------------------------------------------------------------

  function Greeting(mux: Mux, machineID: string, ids: seq<string>): seq<DaemonFrame> {
    [MachineRegister(machineID)] + Resumes(mux, ids)
  }

  lemma GreetingAt(mux: Mux, machineID: string, ids: seq<string>, k: nat)
    requires k < |ids| && Peek(mux, ids[k]) < INT64_END
    ensures Greeting(mux, machineID, ids)[1 + k] == SessionResume(ids[k], Peek(mux, ids[k]))
  {
    assert Greeting(mux, machineID, ids)[1 + k] == Resumes(mux, ids)[k];
  }

  lemma NextResume(g: Gate, g1: Gate, mux: Mux, ids: seq<string>, j: nat, id: string)
    requires j < |ids| && g.last <= Peek(mux, id) && Peek(mux, ids[j]) < INT64_END
    requires g1 == if id in ids[..j] then Gate(true, Peek(mux, id)) else g
    ensures Read(g1, SessionResume(ids[j], Peek(mux, ids[j])), id) ==
            if id in ids[..j + 1] then Gate(true, Peek(mux, id)) else g
  {
    assert ids[..j + 1] == ids[..j] + [ids[j]];
  }

  lemma PrefixSnoc(w: seq<DaemonFrame>, k: nat)
    requires k < |w|
    ensures w[..k + 1] == w[..k] + [w[k]]
  {
  }

  ghost predicate Greets(w: seq<DaemonFrame>, mux: Mux, ids: seq<string>) {
    && |w| == 1 + |ids| && w[0].MachineRegister?
    && forall i :: 0 <= i < |ids| ==>
         Peek(mux, ids[i]) < INT64_END && w[i + 1] == SessionResume(ids[i], Peek(mux, ids[i]))
  }

  lemma GreetingGreets(mux: Mux, machineID: string, ids: seq<string>)
    requires forall i :: 0 <= i < |ids| ==> Peek(mux, ids[i]) < INT64_END
    ensures Greets(Greeting(mux, machineID, ids), mux, ids)
  {
    forall i | 0 <= i < |ids| ensures Greeting(mux, machineID, ids)[i + 1] == SessionResume(ids[i], Peek(mux, ids[i])) {
      GreetingAt(mux, machineID, ids, i);
    }
  }

  /** Reading the first `k` resumes raises each announced session to its daemon's number. */
  lemma {:induction false} ReadGreeting(g: Gate, w: seq<DaemonFrame>, mux: Mux, ids: seq<string>, id: string, k: nat)
    requires Greets(w, mux, ids) && k <= |ids| && g.last <= Peek(mux, id)
    ensures ReadAll(g, w[..k + 1], id) == if id in ids[..k] then Gate(true, Peek(mux, id)) else g
    decreases k
  {
    PrefixSnoc(w, k);
    ReadAllSnoc(g, w[..k], w[k], id);
    if k > 0 {
      ReadGreeting(g, w, mux, ids, id, k - 1);
      NextResume(g, ReadAll(g, w[..k], id), mux, ids, k - 1, id);
      assert w[(k - 1) + 1] == w[k];
    }
  }

  lemma StretchOf(trace: seq<Net>, steps: seq<Step>, cap: int, floor: int, a: nat, b: nat)
    requires IsRun(trace, steps, cap, floor) && 0 < floor <= cap && a <= b < |trace|
    requires forall k :: a <= k < b ==> KeepsConnection(steps[k], trace[a].conn)
    ensures IsStretch(trace[a..b + 1], steps[a..b])
  {
    RunSound(trace, steps, cap, floor, a);
    var t, u := trace[a..b + 1], steps[a..b];
    forall i | 0 <= i < |u|
      ensures Enabled(t[i], u[i]) && t[i + 1] == Do(t[i], u[i]) && KeepsConnection(u[i], t[0].conn)
    {
      assert t[i] == trace[a + i] && t[i + 1] == trace[a + i + 1] && u[i] == steps[a + i];
    }
  }

  /**
   On every run from the start, with anything interleaved: as soon as the coordinator has read a
   handshake up to the session's resume, it knows the session, and its LastSeq is the number the
   daemon had reached at the handshake, whatever was lost before.
   */
  lemma HandshakeSyncs(trace: seq<Net>, steps: seq<Step>, cap: int, floor: int, a: nat, i: nat, j: nat)
    requires IsRun(trace, steps, cap, floor) && 0 < floor <= cap && a < i < |trace|
    requires steps[a].Connect? && j < |steps[a].ids| && steps[a].ids[j] !in trace[a].dropped
    requires forall k :: a + 1 <= k < i ==> KeepsConnection(steps[k], trace[a + 1].conn)
    requires CountReads(steps[a + 1..i]) == 2 + j
    ensures GateOf(trace[i].coord.reg, steps[a].ids[j]) == Gate(true, Peek(trace[a].mux, steps[a].ids[j]))
  {
    var s, ids, id := trace[a], steps[a].ids, steps[a].ids[j];
    RunSound(trace, steps, cap, floor, a);
    StretchOf(trace, steps, cap, floor, a + 1, i);
    var t, u := trace[a + 1..i + 1], steps[a + 1..i];
    assert u[..|u|] == u && t[|u|] == trace[i] && t[0] == Do(s, steps[a]);
    var read, sent := StretchProgress(t, u, id, |u|);
    ReadPrefix(t[0].wire, sent, read, t[|u|].wire, 2 + j);
    GreetingGreets(s.mux, steps[a].machineID, ids);
    ReadGreeting(GateOf(s.coord.reg, id), Greeting(s.mux, steps[a].machineID, ids), s.mux, ids, id, 1 + j);
    assert ids[..1 + j][j] == id;
  }

  /** The part of a run from `a` up to and including step `i`, which reads a frame. */
  lemma UpToRead(trace: seq<Net>, steps: seq<Step>, cap: int, floor: int, a: nat, i: nat)
    returns (t: seq<Net>, u: seq<Step>)
    requires IsRun(trace, steps, cap, floor) && 0 < floor <= cap && a <= i < |steps| && steps[i].Deliver?
    requires forall k :: a <= k < i ==> KeepsConnection(steps[k], trace[a].conn)
    ensures IsStretch(t, u) && |u| == i - a + 1 && u[..i - a] == steps[a..i] && u[i - a] == steps[i]
    ensures t[0] == trace[a] && t[i - a] == trace[i] && t[i - a + 1] == trace[i + 1]
  {
    StretchOf(trace, steps, cap, floor, a, i + 1);
    t, u := trace[a..i + 2], steps[a..i + 1];
  }

  /** Which frames are accepted, from any moment of any run: see `LinkGate.ArrivalDecided`. */
  lemma ArrivalDecidedInRun(trace: seq<Net>, steps: seq<Step>, cap: int, floor: int, a: nat, i: nat, p: nat,
                            id: string, n: int64)
    requires IsRun(trace, steps, cap, floor) && 0 < floor <= cap && a <= i < |steps| && steps[i].Deliver?
    requires forall k :: a <= k < i ==> KeepsConnection(steps[k], trace[a].conn)
    requires p < |trace[a].wire| && Took(trace[a].wire[p], id, n) && CountReads(steps[a..i]) == p
    ensures AcceptedIffAhead(trace[i], trace[i + 1], GateOf(trace[a].coord.reg, id), trace[a].wire[..p],
                             trace[a].wire[p], id, n)
  {
    var t, u := UpToRead(trace, steps, cap, floor, a, i);
    ArrivalDecided(t, u, i - a, p, id, n);
  }
}
