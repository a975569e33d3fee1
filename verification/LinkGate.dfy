/**
 What the coordinator does with the frames of one connection, exactly, on every interleaving:
 a session's number is a fold over the frames read, and a numbered frame is accepted if and only
 if it is ahead of it.
 */
module LinkGate {
  import opened Base
  import opened Ring
  import opened RegistrySpec
  import opened IngestSpec
  import opened Link
  import IngestRuns
  import RegistryRuns

  function LastIn(reg: RegVal, id: string): int {
    if id in reg.m then reg.m[id].lastSeq else 0
  }

  /** The frame took number `n` of session `id`. */
  predicate Took(fr: DaemonFrame, id: string, n: int) {
    Ticket(fr).Some? && Ticket(fr).value.0 == id && Ticket(fr).value.1 == n
  }

  predicate Announces(fr: DaemonFrame, id: string) {
    fr.SessionResume? && fr.id == id
  }

  predicate Restarts(fr: DaemonFrame, id: string) {
    fr.SessionStarted? && fr.id == id
  }

  /** The number a frame brings for session `id`. */
  function NumberFor(fr: DaemonFrame, id: string): Option<int64> {
    if Ticket(fr).Some? && Ticket(fr).value.0 == id then Some(Ticket(fr).value.1)
    else if Announces(fr, id) then Some(fr.lastSeqEmitted)
    else None
  }

  lemma FramedTicket(id: string, n: int64, body: Body, k: string)
    ensures Took(Framed(id, n, body), id, n)
    ensures k != id ==> NumberFor(Framed(id, n, body), k).None?
    ensures !Framed(id, n, body).MachineRegister? && !Restarts(Framed(id, n, body), k)
  {
  }

  // ---------------------------------------------------------------------------------------------
  // One frame
  // ---------------------------------------------------------------------------------------------

  /** What the coordinator knows of one session's numbering. */
  datatype Gate = Gate(known: bool, last: int)

  function GateOf(reg: RegVal, id: string): Gate {
    Gate(id in reg.m, LastIn(reg, id))
  }

  function Max(a: int, b: int): int {
    if a > b then a else b
  }

  function Read(g: Gate, fr: DaemonFrame, id: string): Gate {
    if Restarts(fr, id) then Gate(true, 0)
    else if Announces(fr, id) then Gate(true, Max(g.last, fr.lastSeqEmitted))
    else if Ticket(fr).Some? && Ticket(fr).value.0 == id && g.known then Gate(true, Max(g.last, Ticket(fr).value.1))
    else g
  }

  lemma IngestLast(reg: RegVal, k: string, n: int64, kind: EntryKind, ts: int, raw: seq<byte>, env: Env, id: string)
    requires RegistryRuns.RingsBudgeted(reg) && SeqInv(reg) && Enumerates(env.order, reg.m.Keys)
    ensures var reg' := Ingest(reg, k, n, kind, ts, raw, env);
            && reg'.m.Keys == reg.m.Keys
            && LastIn(reg', id) == if id == k && Advances(reg, k, n) then n else LastIn(reg, id)
  {
    if Advances(reg, k, n) {
      IngestShape(reg, k, n, kind, ts, raw, env);
      if id in reg.m {
        assert SeqOrdered(reg.m[id]) && SeqOrdered(reg.m[k]);
        IngestSession(reg, k, n, kind, ts, raw, env, id);
      }
    }
  }

  lemma TakenReads(reg: RegVal, reg': RegVal, fr: DaemonFrame, k: string, n: int64, id: string)
    requires Took(fr, k, n) && reg'.m.Keys == reg.m.Keys
    requires LastIn(reg', id) == if id == k && Advances(reg, k, n) then n else LastIn(reg, id)
    ensures GateOf(reg', id) == Read(GateOf(reg, id), fr, id)
  {
  }

  lemma IngestReads(reg: RegVal, fr: DaemonFrame, k: string, n: int64, kind: EntryKind, ts: int, raw: seq<byte>,
                    env: Env, id: string)
    requires RegistryRuns.RingsBudgeted(reg) && SeqInv(reg) && Enumerates(env.order, reg.m.Keys)
    requires Took(fr, k, n)
    ensures GateOf(Ingest(reg, k, n, kind, ts, raw, env), id) == Read(GateOf(reg, id), fr, id)
  {
    IngestLast(reg, k, n, kind, ts, raw, env, id);
    TakenReads(reg, Ingest(reg, k, n, kind, ts, raw, env), fr, k, n, id);
  }

  lemma EventReads(v: IngestVal, fr: DaemonFrame, env: Env, id: string)
    requires IngestInv(v) && Enumerates(env.order, v.reg.m.Keys) && fr.SessionEvent?
    ensures GateOf(HandleEvent(v, fr, env).reg, id) == Read(GateOf(v.reg, id), fr, id)
  {
    EventReg(v, fr, env);
    IngestReads(v.reg, fr, fr.id, fr.seqNo, EventEntry, fr.ts, fr.raw, env, id);
  }

  lemma StateChangeReads(v: IngestVal, fr: DaemonFrame, env: Env, id: string)
    requires fr.SessionStateChange?
    ensures GateOf(HandleStateChange(v, fr, env).reg, id) == Read(GateOf(v.reg, id), fr, id)
  {
  }

  lemma EndedReads(v: IngestVal, fr: DaemonFrame, env: Env, id: string)
    requires fr.SessionEnded?
    ensures GateOf(HandleEnded(v, fr, env).reg, id) == Read(GateOf(v.reg, id), fr, id)
  {
  }

  lemma ResumeReads(reg: RegVal, fr: DaemonFrame, machineID: string, now: nat, id: string)
    requires SeqInv(reg) && fr.SessionResume?
    ensures GateOf(Resume(reg, fr.id, machineID, fr.lastSeqEmitted, now), id) == Read(GateOf(reg, id), fr, id)
  {
    assert id in reg.m ==> SeqOrdered(reg.m[id]);
  }

  lemma StartedReads(reg: RegVal, fr: DaemonFrame, now: nat, id: string)
    requires fr.SessionStarted?
    ensures GateOf(RegistrySpec.Register(reg, fr.id, fr.machineID, now), id) == Read(GateOf(reg, id), fr, id)
  {
  }

  lemma PausedReads(reg: RegVal, fr: DaemonFrame, machineID: string, now: nat, id: string)
    requires fr.MachineSuspending?
    ensures GateOf(PauseAllForMachine(reg, machineID, now), id) == Read(GateOf(reg, id), fr, id)
  {
  }

  /** A frame that carries no ring entry. */
  lemma ControlReads(v: IngestVal, conn: ConnId, fr: DaemonFrame, env: Env, id: string)
    requires v.reg.floor >= 0 && SeqInv(v.reg) && Enumerates(env.order, v.reg.m.Keys)
    requires !fr.SessionEvent? && !fr.SessionPty?
    ensures GateOf(Dispatch(v, conn, fr, env).0.reg, id) == Read(GateOf(v.reg, id), fr, id)
  {
    match fr {
      case SessionStarted(_, _) => StartedReads(v.reg, fr, env.now, id);
      case SessionStateChange(_, _, _) => StateChangeReads(v, fr, env, id);
      case SessionEnded(_, _) => EndedReads(v, fr, env, id);
      case SessionResume(_, _) => ResumeReads(v.reg, fr, StateFor(v, conn).machineID, env.now, id);
      case MachineSuspending => PausedReads(v.reg, fr, StateFor(v, conn).machineID, env.now, id);
      case _ =>
    }
  }

  lemma DispatchReads(v: IngestVal, conn: ConnId, fr: DaemonFrame, env: Env, id: string)
    requires IngestInv(v) && Enumerates(env.order, v.reg.m.Keys)
    ensures GateOf(Dispatch(v, conn, fr, env).0.reg, id) == Read(GateOf(v.reg, id), fr, id)
  {
    if fr.SessionEvent? {
      EventReads(v, fr, env, id);
    } else if fr.SessionPty? {
      IngestReads(v.reg, fr, fr.id, fr.seqNo, PtyEntry, fr.ts, fr.raw, env, id);
    } else {
      ControlReads(v, conn, fr, env, id);
    }
  }

  lemma HandleDispatches(v: IngestVal, conn: ConnId, fr: DaemonFrame, env: Env)
    requires v.reg.floor >= 0 && Enumerates(env.order, v.reg.m.Keys)
    requires StateFor(v, conn).registered || fr.MachineRegister?
    ensures Handle(v, conn, fr, env).0.reg ==
            Dispatch(v.(conns := v.conns[conn := StateFor(v, conn)]), conn, fr, env).0.reg
  {
  }

  /**
   A frame on a registered connection moves each session's number in exactly one way: a
   session_started of the session sets it to 0, a resume or a numbered frame of a known session
   raises it to the greater number, and any other frame leaves it alone.
   */
  lemma HandleReads(v: IngestVal, conn: ConnId, fr: DaemonFrame, env: Env, id: string)
    requires IngestInv(v) && Enumerates(env.order, v.reg.m.Keys)
    requires StateFor(v, conn).registered || fr.MachineRegister?
    ensures GateOf(Handle(v, conn, fr, env).0.reg, id) == Read(GateOf(v.reg, id), fr, id)
  {
    ConnsInv(v, conn);
    HandleDispatches(v, conn, fr, env);
    DispatchReads(v.(conns := v.conns[conn := StateFor(v, conn)]), conn, fr, env, id);
  }

  /** A registered connection stays so, and its registration makes it so. */
  lemma HandleRegisters(v: IngestVal, conn: ConnId, fr: DaemonFrame, env: Env)
    requires v.reg.floor >= 0 && Enumerates(env.order, v.reg.m.Keys)
    requires StateFor(v, conn).registered || fr.MachineRegister?
    ensures StateFor(Handle(v, conn, fr, env).0, conn).registered
  {
  }

  // ---------------------------------------------------------------------------------------------
  // Acceptance of one frame
  // ---------------------------------------------------------------------------------------------

  /** The frame moved its session's number, and an event or a chunk is now the ring's newest entry. */
  ghost predicate Accepted(a: RegVal, b: RegVal, id: string, fr: DaemonFrame) {
    && id in a.m && id in b.m
    && Ticket(fr).Some? && b.m[id].lastSeq == Ticket(fr).value.1 > a.m[id].lastSeq
    && b.m[id].ring.history == a.m[id].ring.history + match EntryFrom(fr) case Some(e) => [e] case None => []
  }

  /** The frame left its session's number and history as they were. */
  ghost predicate Refused(a: RegVal, b: RegVal, id: string) {
    && (id in b.m <==> id in a.m)
    && (id in a.m ==> b.m[id].lastSeq == a.m[id].lastSeq && b.m[id].ring.history == a.m[id].ring.history)
  }

  ghost predicate Decided(a: RegVal, b: RegVal, id: string, fr: DaemonFrame, n: int) {
    if Advances(a, id, n) then Accepted(a, b, id, fr) else Refused(a, b, id)
  }

  lemma IngestDecides(reg: RegVal, fr: DaemonFrame, k: string, n: int64, kind: EntryKind, ts: int, raw: seq<byte>,
                      env: Env)
    requires RegistryRuns.RingsBudgeted(reg) && SeqInv(reg) && Enumerates(env.order, reg.m.Keys)
    requires Took(fr, k, n) && EntryFrom(fr) == Some(Entry(ToUint64(n), kind, ts, raw))
    ensures Decided(reg, Ingest(reg, k, n, kind, ts, raw, env), k, fr, n)
  {
    IngestReads(reg, fr, k, n, kind, ts, raw, env, k);
    IngestAppends(reg, k, n, kind, ts, raw, env, k);
    DecidedFrom(reg, Ingest(reg, k, n, kind, ts, raw, env), fr, k, n, Entry(ToUint64(n), kind, ts, raw));
  }

  lemma DecidedFrom(a: RegVal, b: RegVal, fr: DaemonFrame, k: string, n: int, e: Entry)
    requires Took(fr, k, n) && EntryFrom(fr) == Some(e) && b.m.Keys == a.m.Keys
    requires GateOf(b, k) == Read(GateOf(a, k), fr, k)
    requires k in a.m ==> b.m[k].ring.history == a.m[k].ring.history + if Advances(a, k, n) then [e] else []
    ensures Decided(a, b, k, fr, n)
  {
  }

  lemma EventDecides(v: IngestVal, fr: DaemonFrame, env: Env)
    requires IngestInv(v) && Enumerates(env.order, v.reg.m.Keys) && fr.SessionEvent?
    ensures Decided(v.reg, HandleEvent(v, fr, env).reg, fr.id, fr, fr.seqNo)
  {
    IngestDecides(v.reg, fr, fr.id, fr.seqNo, EventEntry, fr.ts, fr.raw, env);
    EventReg(v, fr, env);
    SameDecision(v.reg, Ingest(v.reg, fr.id, fr.seqNo, EventEntry, fr.ts, fr.raw, env), HandleEvent(v, fr, env).reg,
                 fr.id, fr, fr.seqNo);
  }

  lemma SameDecision(a: RegVal, b: RegVal, c: RegVal, id: string, fr: DaemonFrame, n: int)
    requires Decided(a, b, id, fr, n) && c == b
    ensures Decided(a, c, id, fr, n)
  {
  }

  lemma StateDecides(v: IngestVal, fr: DaemonFrame, env: Env)
    requires fr.SessionStateChange?
    ensures Decided(v.reg, HandleStateChange(v, fr, env).reg, fr.id, fr, fr.seqNo)
  {
  }

  lemma EndedDecides(v: IngestVal, fr: DaemonFrame, env: Env)
    requires fr.SessionEnded?
    ensures Decided(v.reg, HandleEnded(v, fr, env).reg, fr.id, fr, fr.seqNo)
  {
  }

  lemma DispatchDecides(v: IngestVal, conn: ConnId, fr: DaemonFrame, env: Env, id: string, n: int64)
    requires IngestInv(v) && Enumerates(env.order, v.reg.m.Keys) && Took(fr, id, n)
    ensures Decided(v.reg, Dispatch(v, conn, fr, env).0.reg, id, fr, n)
  {
    match fr {
      case SessionEvent(_, _, _, _, _) => EventDecides(v, fr, env);
      case SessionPty(_, _, ts, raw) => IngestDecides(v.reg, fr, id, n, PtyEntry, ts, raw, env);
      case SessionStateChange(_, _, _) => StateDecides(v, fr, env);
      case SessionEnded(_, _) => EndedDecides(v, fr, env);
    }
  }

  /** A numbered frame on a registered connection is accepted if and only if its session is known
      and the number is ahead; otherwise number and history stay as they are. */
  lemma HandleDecides(v: IngestVal, conn: ConnId, fr: DaemonFrame, env: Env, id: string, n: int64)
    requires IngestInv(v) && Enumerates(env.order, v.reg.m.Keys) && StateFor(v, conn).registered && Took(fr, id, n)
    ensures Decided(v.reg, Handle(v, conn, fr, env).0.reg, id, fr, n)
    ensures Accepted(v.reg, Handle(v, conn, fr, env).0.reg, id, fr) <==> id in v.reg.m && n > v.reg.m[id].lastSeq
  {
    ConnsInv(v, conn);
    HandleDispatches(v, conn, fr, env);
    DispatchDecides(v.(conns := v.conns[conn := StateFor(v, conn)]), conn, fr, env, id, n);
  }

  // ---------------------------------------------------------------------------------------------
  // The frames of one connection
  // ---------------------------------------------------------------------------------------------

  /** A connection's first frame is its registration. */
  ghost predicate Gated(s: Net) {
    && (!s.reading ==> s.wire == [])
    && (s.reading && !StateFor(s.coord, s.conn).registered ==> s.wire != [] && s.wire[0].MachineRegister?)
  }

  lemma GatedKeeps(s: Net, step: Step)
    requires Gated(s) && Enabled(s, step)
    ensures Gated(Do(s, step))
  {
    if step.Deliver? { HandleRegisters(s.coord, s.conn, s.wire[0], step.env); }
  }

  /** The coordinator goes on reading the connection. */
  predicate KeepsConnection(step: Step, conn: ConnId) {
    !step.Connect? && !step.Restart? && !(step.Closed? && step.conn == conn)
  }

  ghost predicate IsStretch(trace: seq<Net>, steps: seq<Step>) {
    && |trace| == |steps| + 1 && Inv(trace[0]) && Gated(trace[0])
    && forall i :: 0 <= i < |steps| ==>
         && Enabled(trace[i], steps[i]) && trace[i + 1] == Do(trace[i], steps[i])
         && KeepsConnection(steps[i], trace[0].conn)
  }

  function CountReads(steps: seq<Step>): nat {
    if steps == [] then 0 else CountReads(steps[..|steps| - 1]) + if steps[|steps| - 1].Deliver? then 1 else 0
  }

  function ReadAll(g: Gate, fs: seq<DaemonFrame>, id: string): Gate {
    if fs == [] then g else Read(ReadAll(g, fs[..|fs| - 1], id), fs[|fs| - 1], id)
  }

  lemma ReadAllSnoc(g: Gate, fs: seq<DaemonFrame>, fr: DaemonFrame, id: string)
    ensures ReadAll(g, fs + [fr], id) == Read(ReadAll(g, fs, id), fr, id)
  {
    assert (fs + [fr])[..|fs|] == fs;
  }

  /** Steps that do not read leave the numbering alone and only lengthen the wire. */
  lemma NoRead(s: Net, step: Step, id: string)
    requires Enabled(s, step) && KeepsConnection(step, s.conn) && !step.Deliver?
    ensures var s' := Do(s, step);
            && GateOf(s'.coord.reg, id) == GateOf(s.coord.reg, id) && s'.conn == s.conn
            && (s'.wire == s.wire || exists fr :: s'.wire == s.wire + [fr])
  {
    match step {
      case Closed(c, now) => IngestRuns.CloseKeepsNumbers(s.coord, c, now);
      case Write(i) => assert Do(s, step).wire == s.wire || Do(s, step).wire == s.wire + [s.held[i]];
      case _ =>
    }
  }

  lemma OneRead(s: Net, env: Env, id: string)
    requires Inv(s) && Gated(s) && Enabled(s, Deliver(env))
    ensures var s' := Do(s, Deliver(env));
            && s.wire == [s.wire[0]] + s'.wire && s'.conn == s.conn
            && GateOf(s'.coord.reg, id) == Read(GateOf(s.coord.reg, id), s.wire[0], id)
  {
    HandleReads(s.coord, s.conn, s.wire[0], env, id);
  }

  /** What has been read of a connection, and what has been written on it, up to step `i`. */
  ghost predicate Progress(a: Net, s: Net, read: seq<DaemonFrame>, sent: seq<DaemonFrame>, id: string) {
    && a.wire + sent == read + s.wire && s.conn == a.conn
    && GateOf(s.coord.reg, id) == ReadAll(GateOf(a.coord.reg, id), read, id)
  }

  lemma ProgressRead(a: Net, s: Net, env: Env, read: seq<DaemonFrame>, sent: seq<DaemonFrame>, id: string)
    requires Inv(s) && Gated(s) && Enabled(s, Deliver(env)) && Progress(a, s, read, sent, id)
    ensures Progress(a, Do(s, Deliver(env)), read + [s.wire[0]], sent, id)
  {
    OneRead(s, env, id);
    ReadAllSnoc(GateOf(a.coord.reg, id), read, s.wire[0], id);
    assert read + s.wire == (read + [s.wire[0]]) + Do(s, Deliver(env)).wire;
  }

  lemma ProgressOther(a: Net, s: Net, step: Step, read: seq<DaemonFrame>, sent: seq<DaemonFrame>, id: string)
    returns (sent': seq<DaemonFrame>)
    requires Enabled(s, step) && KeepsConnection(step, s.conn) && !step.Deliver? && Progress(a, s, read, sent, id)
    ensures Progress(a, Do(s, step), read, sent', id)
  {
    NoRead(s, step, id);
    sent' := sent;
    if Do(s, step).wire != s.wire {
      var fr :| Do(s, step).wire == s.wire + [fr];
      sent' := sent + [fr];
      assert a.wire + (sent + [fr]) == (a.wire + sent) + [fr];
      assert read + (s.wire + [fr]) == (read + s.wire) + [fr];
    }
  }

  lemma {:induction false} StretchProgress(trace: seq<Net>, steps: seq<Step>, id: string, i: nat)
    returns (read: seq<DaemonFrame>, sent: seq<DaemonFrame>)
    requires IsStretch(trace, steps) && i < |trace|
    ensures Inv(trace[i]) && Gated(trace[i])
    ensures Progress(trace[0], trace[i], read, sent, id) && |read| == CountReads(steps[..i])
  {
    if i == 0 {
      read, sent := [], [];
    } else {
      read, sent := StretchProgress(trace, steps, id, i - 1);
      assert steps[..i][..i - 1] == steps[..i - 1];
      StepKeeps(trace[i - 1], steps[i - 1]);
      GatedKeeps(trace[i - 1], steps[i - 1]);
      if steps[i - 1].Deliver? {
        ProgressRead(trace[0], trace[i - 1], steps[i - 1].env, read, sent, id);
        read := read + [trace[i - 1].wire[0]];
      } else {
        sent := ProgressOther(trace[0], trace[i - 1], steps[i - 1], read, sent, id);
      }
    }
  }

  // ---------------------------------------------------------------------------------------------
  // Which frames are accepted
  // ---------------------------------------------------------------------------------------------

  /** The session is known once the frames have been read. */
  ghost predicate KnownAfter(g: Gate, fs: seq<DaemonFrame>, id: string) {
    g.known || exists k :: 0 <= k < |fs| && (Restarts(fs[k], id) || Announces(fs[k], id))
  }

  /** No session_started of the session from position `from` on. */
  ghost predicate NoRestart(fs: seq<DaemonFrame>, from: int, id: string) {
    forall k :: from <= k < |fs| && 0 <= k ==> !Restarts(fs[k], id)
  }

  /** `n` is greater than the number at the start and than every number of the session read since,
      of those that came after its last session_started; what was read while it was unknown does
      not count. */
  ghost predicate Exceeds(g: Gate, fs: seq<DaemonFrame>, id: string, n: int) {
    && n > 0
    && (NoRestart(fs, 0, id) ==> n > g.last)
    && (forall k :: 0 <= k < |fs| && NumberFor(fs[k], id).Some? && NoRestart(fs, k + 1, id) &&
                    (Announces(fs[k], id) || KnownAfter(g, fs[..k], id)) ==>
          n > NumberFor(fs[k], id).value)
  }

  lemma KnownSnoc(g: Gate, fs: seq<DaemonFrame>, fr: DaemonFrame, id: string)
    ensures KnownAfter(g, fs + [fr], id) <==> KnownAfter(g, fs, id) || Restarts(fr, id) || Announces(fr, id)
  {
    var all := fs + [fr];
    assert all[|fs|] == fr;
    if KnownAfter(g, fs, id) && !g.known {
      var k :| 0 <= k < |fs| && (Restarts(fs[k], id) || Announces(fs[k], id));
      assert all[k] == fs[k];
    }
  }

  lemma NoRestartSnoc(fs: seq<DaemonFrame>, fr: DaemonFrame, from: int, id: string)
    requires from <= |fs|
    ensures NoRestart(fs + [fr], from, id) <==> NoRestart(fs, from, id) && !Restarts(fr, id)
  {
    var all := fs + [fr];
    assert all[|fs|] == fr;
    assert forall k :: 0 <= k < |fs| ==> all[k] == fs[k];
  }

  lemma ExceedsSnoc(g: Gate, fs: seq<DaemonFrame>, fr: DaemonFrame, id: string, n: int)
    ensures Exceeds(g, fs + [fr], id, n) <==>
      if Restarts(fr, id) then n > 0
      else Exceeds(g, fs, id, n) &&
           (NumberFor(fr, id).Some? && (Announces(fr, id) || KnownAfter(g, fs, id)) ==> n > NumberFor(fr, id).value)
  {
    var all := fs + [fr];
    assert all[|fs|] == fr && all[..|fs|] == fs;
    NoRestartSnoc(fs, fr, 0, id);
    forall k | 0 <= k < |fs|
      ensures all[k] == fs[k] && all[..k] == fs[..k]
      ensures NoRestart(all, k + 1, id) <==> NoRestart(fs, k + 1, id) && !Restarts(fr, id)
    {
      NoRestartSnoc(fs, fr, k + 1, id);
    }
  }

  /** The fold and the numbers on the way say the same. */
  lemma {:induction false} ReadAllExceeds(g: Gate, fs: seq<DaemonFrame>, id: string, n: int)
    requires 0 <= g.last && (!g.known ==> g.last == 0)
    ensures var r := ReadAll(g, fs, id);
            && 0 <= r.last && (!r.known ==> r.last == 0)
            && (r.known <==> KnownAfter(g, fs, id))
            && (n > r.last <==> Exceeds(g, fs, id, n))
    decreases |fs|
  {
    if fs != [] {
      var h, fr := fs[..|fs| - 1], fs[|fs| - 1];
      assert fs == h + [fr];
      ReadAllExceeds(g, h, id, n);
      KnownSnoc(g, h, fr, id);
      ExceedsSnoc(g, h, fr, id, n);
    }
  }

  lemma GateStart(s: Net, id: string)
    requires Inv(s)
    ensures 0 <= GateOf(s.coord.reg, id).last && (!GateOf(s.coord.reg, id).known ==> GateOf(s.coord.reg, id).last == 0)
  {
    assert id in s.coord.reg.m ==> SeqOrdered(s.coord.reg.m[id]);
  }

  /** The frame read in the step from `s` to `s'` is accepted if and only if its session is known
      after the frames `ahead` of it, read from `g` on, and its number exceeds theirs. A refused
      frame changes neither number nor history. */
  ghost predicate AcceptedIffAhead(s: Net, s': Net, g: Gate, ahead: seq<DaemonFrame>, fr: DaemonFrame, id: string,
                                   n: int)
  {
    && s.wire != [] && s.wire[0] == fr
    && (Accepted(s.coord.reg, s'.coord.reg, id, fr) <==> KnownAfter(g, ahead, id) && Exceeds(g, ahead, id, n))
    && (!Accepted(s.coord.reg, s'.coord.reg, id, fr) ==> Refused(s.coord.reg, s'.coord.reg, id))
  }

  /**
   From any moment on, whatever producers, losses and other connections do while this one is read:
   the numbered frame at position `p` of the wire is accepted when its turn comes if and only if
   its session is known by then and its number exceeds the coordinator's number and every number
   of the session ahead of it, counted since the last session_started among them.
   */
  lemma ArrivalDecided(trace: seq<Net>, steps: seq<Step>, i: nat, p: nat, id: string, n: int64)
    requires IsStretch(trace, steps) && i < |steps| && steps[i].Deliver?
    requires p < |trace[0].wire| && Took(trace[0].wire[p], id, n) && CountReads(steps[..i]) == p
    ensures AcceptedIffAhead(trace[i], trace[i + 1], GateOf(trace[0].coord.reg, id), trace[0].wire[..p],
                             trace[0].wire[p], id, n)
  {
    var read, sent := StretchProgress(trace, steps, id, i);
    ReadPrefix(trace[0].wire, sent, read, trace[i].wire, p);
    GateStart(trace[0], id);
    ReadAllExceeds(GateOf(trace[0].coord.reg, id), trace[0].wire[..p], id, n);
    DecideHere(trace[i], steps[i].env, id, n);
  }

  lemma ReadPrefix(wire: seq<DaemonFrame>, sent: seq<DaemonFrame>, read: seq<DaemonFrame>, rest: seq<DaemonFrame>,
                   p: nat)
    requires wire + sent == read + rest && |read| == p <= |wire|
    ensures read == wire[..p]
    ensures p < |wire| ==> rest != [] && rest[0] == wire[p]
  {
    assert (wire + sent)[..p] == wire[..p] && (read + rest)[..p] == read;
    if p < |wire| { assert (read + rest)[p] == rest[0] && (wire + sent)[p] == wire[p]; }
  }

  lemma DecideHere(s: Net, env: Env, id: string, n: int64)
    requires Inv(s) && Gated(s) && Enabled(s, Deliver(env)) && Took(s.wire[0], id, n)
    ensures var a, b := s.coord.reg, Do(s, Deliver(env)).coord.reg;
            && (Accepted(a, b, id, s.wire[0]) <==> GateOf(a, id).known && n > GateOf(a, id).last)
            && (!Accepted(a, b, id, s.wire[0]) ==> Refused(a, b, id))
  {
    HandleDecides(s.coord, s.conn, s.wire[0], env, id, n);
  }
}
