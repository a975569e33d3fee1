/**
 The read loop of one daemon connection, proved against the frame machine: whatever arrives, the
 ingestor object goes through a run of `IngestRuns`, and every client is sent what that run calls for.
 */
module DaemonWs {
  import opened Base
  import opened Balance
  import opened Sessions
  import opened IngestSpec
  import opened IngestRuns
  import opened Ingestors
  import opened SessionRegistry
  import Handover

  /** The ingestor, the Send calls of every client, and the clients of every session. */
  datatype Snapshot = Snapshot(
    v: IngestVal, calls: map<ClientConn, seq<Handover.Frame>>, members: map<string, set<ClientConn>>)

  /** One frame handled: the value, the clients told, the clients of a session object just made. */
  ghost predicate Handled(a: Snapshot, step: Step, b: Snapshot,
                          control: (DaemonFrame, string) -> seq<byte>, paused: Status -> seq<byte>)
  {
    && step.Received? && Enabled(a.v, step) && b.v == Do(a.v, step)
    && b.calls == HandleCalls(a.calls, a.v, step.conn, step.fr, step.env.order, a.members, control, paused)
    && b.members == if StateFor(a.v, step.conn).registered then MembersAfter(a.v.reg, step.fr, a.members) else a.members
  }

  /** The turn of one frame of the connection, which goes on unless it is refused. */
  ghost predicate Turn(a: Snapshot, step: Step, b: Snapshot, conn: ConnId, fr: DaemonFrame, last: bool,
                       control: (DaemonFrame, string) -> seq<byte>, paused: Status -> seq<byte>)
  {
    Handled(a, step, b, control, paused) && step.conn == conn && step.fr == fr && (last || Accepts(a.v, step))
  }

  /** The first `|steps|` frames handled one after another, none but perhaps the last refused. */
  ghost predicate HandledAll(t: seq<Snapshot>, steps: seq<Step>, conn: ConnId, frames: seq<DaemonFrame>,
                             control: (DaemonFrame, string) -> seq<byte>, paused: Status -> seq<byte>)
  {
    && |t| == |steps| + 1 && |steps| <= |frames|
    && forall i :: 0 <= i < |steps| ==>
         Turn(t[i], steps[i], t[i + 1], conn, frames[i], i + 1 == |steps|, control, paused)
  }

  ghost predicate Accepts(v: IngestVal, step: Step) {
    step.Received? && Enabled(v, step) && Handle(v, step.conn, step.fr, step.env).1.None?
  }

  lemma HandledSnoc(t: seq<Snapshot>, steps: seq<Step>, conn: ConnId, frames: seq<DaemonFrame>, step: Step, b: Snapshot,
                    control: (DaemonFrame, string) -> seq<byte>, paused: Status -> seq<byte>)
    requires HandledAll(t, steps, conn, frames, control, paused)
    requires steps != [] ==> Accepts(t[|steps| - 1].v, steps[|steps| - 1])
    requires |steps| < |frames| && Handled(t[|steps|], step, b, control, paused)
    requires step.conn == conn && step.fr == frames[|steps|]
    ensures HandledAll(t + [b], steps + [step], conn, frames, control, paused)
  {
    var t', steps' := t + [b], steps + [step];
    forall i | 0 <= i < |steps'|
      ensures Turn(t'[i], steps'[i], t'[i + 1], conn, frames[i], i + 1 == |steps'|, control, paused)
    {
      if i < |steps| {
        assert Turn(t[i], steps[i], t[i + 1], conn, frames[i], i + 1 == |steps|, control, paused);
        assert t'[i] == t[i] && t'[i + 1] == t[i + 1] && steps'[i] == steps[i];
      } else {
        assert t'[i] == t[i] && t'[i + 1] == b && steps'[i] == step;
      }
    }
  }

  /** The connection is gone: its machine's sessions are paused and their clients told. */
  ghost predicate Gone(a: Snapshot, conn: ConnId, now: nat, order: seq<string>, b: Snapshot,
                       paused: Status -> seq<byte>)
  {
    && Enumerates(order, a.v.reg.m.Keys) && b.v == CloseConn(a.v, conn, now) && b.members == a.members
    && b.calls == if StateFor(a.v, conn).registered
                  then PauseCalls(a.calls, a.v.reg, order, a.members, StateFor(a.v, conn).machineID, paused)
                  else a.calls
  }

  function Values(t: seq<Snapshot>): (r: seq<IngestVal>)
    ensures |r| == |t| && forall i :: 0 <= i < |t| ==> r[i] == t[i].v
  {
    seq(|t|, i requires 0 <= i < |t| => t[i].v)
  }

  lemma RunThenStep(trace: seq<IngestVal>, steps: seq<Step>, cap: int, floor: int, step: Step)
    requires IsRun(trace, steps, cap, floor) && Enabled(trace[|steps|], step)
    ensures IsRun(trace + [Do(trace[|steps|], step)], steps + [step], cap, floor)
  {
  }

  lemma {:induction false} RunThenSteps(trace: seq<IngestVal>, before: seq<Step>, cap: int, floor: int,
                                        t: seq<Snapshot>, steps: seq<Step>, n: nat,
                                        control: (DaemonFrame, string) -> seq<byte>, paused: Status -> seq<byte>)
    requires IsRun(trace, before, cap, floor) && |t| == |steps| + 1 && trace[|before|] == t[0].v && n <= |steps|
    requires forall i :: 0 <= i < |steps| ==> Handled(t[i], steps[i], t[i + 1], control, paused)
    ensures IsRun(trace + Values(t)[1..n + 1], before + steps[..n], cap, floor)
    ensures (trace + Values(t)[1..n + 1])[|before| + n] == t[n].v
  {
    if n == 0 {
      assert trace + Values(t)[1..1] == trace && before + steps[..0] == before;
    } else {
      RunThenSteps(trace, before, cap, floor, t, steps, n - 1, control, paused);
      var tr, st := trace + Values(t)[1..n], before + steps[..n - 1];
      assert Handled(t[n - 1], steps[n - 1], t[n], control, paused);
      RunThenStep(tr, st, cap, floor, steps[n - 1]);
      assert trace + Values(t)[1..n + 1] == tr + [t[n].v];
      assert before + steps[..n] == st + [steps[n - 1]];
    }
  }

  /** Serving a connection prolongs a run of the frame machine, so whatever holds over all runs of it
      holds of the objects after any connections have been served. */
  lemma ServingProlongsRun(trace: seq<IngestVal>, before: seq<Step>, cap: int, floor: int,
                           t: seq<Snapshot>, steps: seq<Step>, conn: ConnId, frames: seq<DaemonFrame>,
                           now: nat, order: seq<string>, end: Snapshot,
                           control: (DaemonFrame, string) -> seq<byte>, paused: Status -> seq<byte>)
    requires IsRun(trace, before, cap, floor) && HandledAll(t, steps, conn, frames, control, paused)
    requires trace[|before|] == t[0].v && Gone(t[|steps|], conn, now, order, end, paused) && end.v.reg.floor >= 0
    ensures IsRun(trace + Values(t)[1..] + [end.v], before + steps + [Closed(conn, now)], cap, floor)
  {
    RunThenSteps(trace, before, cap, floor, t, steps, |steps|, control, paused);
    assert Values(t)[1..|steps| + 1] == Values(t)[1..] && steps[..|steps|] == steps;
    RunThenStep(trace + Values(t)[1..], before + steps, cap, floor, Closed(conn, now));
  }

  class DaemonHandler {
    const ingestor: Ingestor

    constructor (ingestor: Ingestor)
      ensures this.ingestor == ingestor
    {
      this.ingestor := ingestor;
    }

    /** The objects are in the state `s`. */
    ghost predicate At(s: Snapshot, cs: set<ClientConn>)
      reads ingestor, ingestor.sessions, ingestor.sessions.m.Values, ingestor.sessions.SessionRings()
      reads ingestor.sessions.SessionSlices(), cs`calls
    {
      ingestor.Is(s.v) && ingestor.Clients(s.members, cs) && CallsOf(cs) == s.calls
    }

    method HandleOne(conn: ConnId, fr: DaemonFrame, now: nat, f: Scale, ghost s: Snapshot, ghost cs: set<ClientConn>)
      returns (err: Option<HandleError>, ghost step: Step, ghost s': Snapshot)
      requires At(s, cs)
      modifies ingestor, ingestor.sessions, ingestor.sessions.Repr, cs`calls, cs`queue
      ensures At(s', cs) && fresh(ingestor.sessions.Repr - old(ingestor.sessions.Repr))
      ensures Handled(s, step, s', ingestor.control, ingestor.paused) && step.conn == conn && step.fr == fr
      ensures err.None? <==> Accepts(s.v, step)
    {
      ghost var order;
      err, order := ingestor.Handle(conn, fr, now, f, s.v, s.members, cs);
      step := Received(conn, fr, Env(now, order, f));
      s' := Snapshot(Do(s.v, step), CallsOf(cs),
                     if StateFor(s.v, conn).registered then MembersAfter(s.v.reg, fr, s.members) else s.members);
    }

    /** Some of the frames have been handled, and the objects are where that leads. */
    ghost predicate Serving(t: seq<Snapshot>, steps: seq<Step>, conn: ConnId, frames: seq<DaemonFrame>,
                            cs: set<ClientConn>)
      reads ingestor, ingestor.sessions, ingestor.sessions.m.Values, ingestor.sessions.SessionRings()
      reads ingestor.sessions.SessionSlices(), cs`calls
    {
      && HandledAll(t, steps, conn, frames, ingestor.control, ingestor.paused)
      && At(t[|steps|], cs)
    }

    ghost predicate LastAccepted(t: seq<Snapshot>, steps: seq<Step>) {
      |t| == |steps| + 1 && (steps == [] || Accepts(t[|steps| - 1].v, steps[|steps| - 1]))
    }

    method ServeNext(conn: ConnId, frames: seq<DaemonFrame>, i: nat, now: nat, f: Scale, ghost t: seq<Snapshot>,
                     ghost steps: seq<Step>, ghost cs: set<ClientConn>)
      returns (err: Option<HandleError>, ghost t': seq<Snapshot>, ghost steps': seq<Step>)
      requires Serving(t, steps, conn, frames, cs) && LastAccepted(t, steps) && i == |steps| < |frames|
      modifies ingestor, ingestor.sessions, ingestor.sessions.Repr, cs`calls, cs`queue
      ensures Serving(t', steps', conn, frames, cs) && |steps'| == i + 1 && t'[0] == t[0]
      ensures err.None? <==> LastAccepted(t', steps')
      ensures fresh(ingestor.sessions.Repr - old(ingestor.sessions.Repr))
    {
      ghost var step, next;
      err, step, next := HandleOne(conn, frames[i], now, f, t[|steps|], cs);
      HandledSnoc(t, steps, conn, frames, step, next, ingestor.control, ingestor.paused);
      t', steps' := t + [next], steps + [step];
    }

    method CloseOne(conn: ConnId, now: nat, ghost s: Snapshot, ghost cs: set<ClientConn>)
      returns (ghost order: seq<string>, ghost end: Snapshot)
      requires At(s, cs)
      modifies ingestor, ingestor.sessions.Repr, cs`calls, cs`queue
      ensures Gone(s, conn, now, order, end, ingestor.paused) && At(end, cs)
      ensures ingestor.sessions.Repr == old(ingestor.sessions.Repr)
    {
      order := ingestor.ConnClosed(conn, now, s.v, s.members, cs);
      end := Snapshot(CloseConn(s.v, conn, now), CallsOf(cs), s.members);
    }

    /** The loop: frames are handled in order until one is refused or the last has been read. */
    method ReadLoop(conn: ConnId, frames: seq<DaemonFrame>, times: seq<nat>, f: Scale, ghost s: Snapshot,
                    ghost cs: set<ClientConn>)
      returns (ghost t: seq<Snapshot>, ghost steps: seq<Step>)
      requires At(s, cs) && |times| == |frames|
      modifies ingestor, ingestor.sessions, ingestor.sessions.Repr, cs`calls, cs`queue
      ensures |steps| <= |frames| && Serving(t, steps, conn, frames, cs) && t[0] == s
      ensures |steps| < |frames| ==> !LastAccepted(t, steps)
      ensures fresh(ingestor.sessions.Repr - old(ingestor.sessions.Repr))
    {
      t, steps := [s], [];
      var i, err := 0, None;
      while i < |frames| && err.None?
        invariant i <= |frames| && |steps| == i
        invariant Serving(t, steps, conn, frames, cs) && t[0] == s
        invariant err.None? <==> LastAccepted(t, steps)
        invariant fresh(ingestor.sessions.Repr - old(ingestor.sessions.Repr))
      {
        err, t, steps := ServeNext(conn, frames, i, times[i], f, t, steps, cs);
        i := i + 1;
      }
    }

    /** The read loop, and then the end of the connection. What is read goes through a run of the
        frame machine; every client is sent what that run calls for, and the clients of every session
        are known again afterwards, so that another connection can be served. */
    method Serve(conn: ConnId, frames: seq<DaemonFrame>, times: seq<nat>, closed: nat, f: Scale,
                 ghost s: Snapshot, ghost cs: set<ClientConn>)
      returns (ghost t: seq<Snapshot>, ghost steps: seq<Step>, ghost order: seq<string>, ghost end: Snapshot)
      requires At(s, cs) && |times| == |frames|
      modifies ingestor, ingestor.sessions, ingestor.sessions.Repr, cs`calls, cs`queue
      ensures |steps| <= |frames| && |t| == |steps| + 1 && t[0] == s
      ensures HandledAll(t, steps, conn, frames, ingestor.control, ingestor.paused)
      ensures |steps| < |frames| ==> !LastAccepted(t, steps)
      ensures Gone(t[|steps|], conn, closed, order, end, ingestor.paused)
      ensures At(end, cs) && fresh(ingestor.sessions.Repr - old(ingestor.sessions.Repr))
    {
      t, steps := ReadLoop(conn, frames, times, f, s, cs);
      order, end := CloseOne(conn, closed, t[|steps|], cs);
    }
  }
}
