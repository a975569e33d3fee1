/** Every run of the ingestor: any frames, duplicates, stale numbers and resumes included. */
module IngestRuns {
  import opened Base
  import opened Ring
  import opened BalanceProps
  import opened RegistrySpec
  import opened IngestSpec
  import RegistryRuns

  // ---------------------------------------------------------------------------------------------
  // Pushes
  // ---------------------------------------------------------------------------------------------

  lemma PushesKeep(v: IngestVal, v': IngestVal)
    requires PushInv(v) && v'.pushes == v.pushes && RegGrows(v.reg, v'.reg)
    ensures PushInv(v')
  {
    forall p, id | p in v'.pushes && p.EventPush? && id in v'.reg.m && v'.reg.m[id].epoch == p.epoch
      ensures p.seqNo <= v'.reg.m[id].lastSeq
    {
      assert p in v.pushes;
      assert v'.reg.m[id].epoch < v.reg.epochs;
      assert Grows(v.reg.m[id], v'.reg.m[id]);
    }
  }

  lemma OtherPushKeeps(v: IngestVal, id: string, p: Push)
    requires PushInv(v) && !p.EventPush?
    ensures PushInv(NotifyPush(v, id, p)) && NotifyPush(v, id, p).reg == v.reg
  {
  }

  /** A new event push carries a number its session object has just passed. */
  lemma EventPushKeeps(v: IngestVal, v': IngestVal, id: string, kind: EventKind)
    requires SeqInv(v.reg) && PushInv(v) && PushInv(v') && v'.pushes == v.pushes && SeqInv(v'.reg)
    requires id in v.reg.m && id in v'.reg.m
    requires v'.reg.m[id].epoch == v.reg.m[id].epoch && v.reg.m[id].lastSeq < v'.reg.m[id].lastSeq
    ensures PushInv(NotifyPush(v', id, EventPush(id, v'.reg.m[id].epoch, v'.reg.m[id].lastSeq, kind)))
  {
    var p := EventPush(id, v'.reg.m[id].epoch, v'.reg.m[id].lastSeq, kind);
    forall i | 0 <= i < |v.pushes| && v.pushes[i].EventPush? && v.pushes[i].epoch == p.epoch
      ensures v.pushes[i].seqNo < p.seqNo
    {
      assert v.pushes[i] in v.pushes;
    }
  }

  // ---------------------------------------------------------------------------------------------
  // One step
  // ---------------------------------------------------------------------------------------------

  ghost predicate Listed(v: IngestVal, env: Env) {
    Enumerates(env.order, v.reg.m.Keys)
  }

  lemma GrowsRefl(reg: RegVal)
    ensures RegGrows(reg, reg)
  {
  }

  lemma IngestStep(v: IngestVal, id: string, seqNo: int64, kind: EntryKind, ts: int, raw: seq<byte>, env: Env)
    requires IngestInv(v) && Listed(v, env)
    ensures var v' := v.(reg := Ingest(v.reg, id, seqNo, kind, ts, raw, env));
            IngestInv(v') && RegGrows(v.reg, v'.reg)
  {
    var v' := v.(reg := Ingest(v.reg, id, seqNo, kind, ts, raw, env));
    IngestBudget(v.reg, id, seqNo, kind, ts, raw, env);
    if Advances(v.reg, id, seqNo) {
      IngestSeq(v.reg, id, seqNo, kind, ts, raw, env);
    } else {
      GrowsRefl(v.reg);
    }
    PushesKeep(v, v');
  }

  lemma EventPushStep(v: IngestVal, fr: DaemonFrame, env: Env)
    requires IngestInv(v) && Listed(v, env) && fr.SessionEvent? && Advances(v.reg, fr.id, fr.seqNo)
    requires PushInv(v.(reg := Ingest(v.reg, fr.id, fr.seqNo, EventEntry, fr.ts, fr.raw, env)))
    ensures PushInv(HandleEvent(v, fr, env))
  {
    IngestSeq(v.reg, fr.id, fr.seqNo, EventEntry, fr.ts, fr.raw, env);
    EventPushKeeps(v, v.(reg := Ingest(v.reg, fr.id, fr.seqNo, EventEntry, fr.ts, fr.raw, env)), fr.id, fr.kind);
  }

  lemma EventStep(v: IngestVal, fr: DaemonFrame, env: Env)
    requires IngestInv(v) && Listed(v, env) && fr.SessionEvent?
    ensures IngestInv(HandleEvent(v, fr, env)) && RegGrows(v.reg, HandleEvent(v, fr, env).reg)
  {
    IngestStep(v, fr.id, fr.seqNo, EventEntry, fr.ts, fr.raw, env);
    assert HandleEvent(v, fr, env).reg == Ingest(v.reg, fr.id, fr.seqNo, EventEntry, fr.ts, fr.raw, env);
    if Advances(v.reg, fr.id, fr.seqNo) { EventPushStep(v, fr, env); }
  }

  lemma FieldsStep(v: IngestVal, v': IngestVal)
    requires IngestInv(v) && v'.pushes == v.pushes
    requires v'.reg == v.reg.(m := v'.reg.m) && v'.reg.m.Keys == v.reg.m.Keys
    requires forall id :: id in v.reg.m ==> FieldsOnly(v.reg.m[id], v'.reg.m[id])
    ensures IngestInv(v') && RegGrows(v.reg, v'.reg)
  {
    RegistryRuns.SameRingsKeeps(v.reg, v'.reg);
    FieldsSeq(v.reg, v'.reg);
    PushesKeep(v, v');
  }

  lemma RaiseFields(reg: RegVal, id: string, seqNo: int64, now: nat, k: string)
    requires k in reg.m && SeqOrdered(reg.m[k])
    ensures var w := RaiseSeq(reg, id, seqNo, now);
            w == reg.(m := w.m) && w.m.Keys == reg.m.Keys && FieldsOnly(reg.m[k], w.m[k]) && SeqOrdered(w.m[k])
  {
  }

  lemma ChangedFields(reg: RegVal, id: string, to: Status, seqNo: int64, now: nat, k: string)
    requires k in reg.m && SeqOrdered(reg.m[k])
    ensures var w := RaiseSeq(SetState(reg, id, to, now), id, seqNo, now);
            w == reg.(m := w.m) && w.m.Keys == reg.m.Keys && FieldsOnly(reg.m[k], w.m[k])
  {
    RaiseFields(SetState(reg, id, to, now), id, seqNo, now, k);
  }

  lemma EndedFields(reg: RegVal, id: string, seqNo: int64, now: nat, k: string)
    requires k in reg.m && SeqOrdered(reg.m[k])
    ensures var w := MarkEnded(RaiseSeq(reg, id, seqNo, now), id, now);
            w == reg.(m := w.m) && w.m.Keys == reg.m.Keys && FieldsOnly(reg.m[k], w.m[k])
  {
    RaiseFields(reg, id, seqNo, now, k);
  }

  lemma SetAndRaised(v: IngestVal, id: string, to: Status, seqNo: int64, now: nat)
    requires IngestInv(v)
    ensures var v' := v.(reg := RaiseSeq(SetState(v.reg, id, to, now), id, seqNo, now));
            IngestInv(v') && RegGrows(v.reg, v'.reg)
  {
    var v' := v.(reg := RaiseSeq(SetState(v.reg, id, to, now), id, seqNo, now));
    forall k | k in v.reg.m ensures v'.reg.m.Keys == v.reg.m.Keys && FieldsOnly(v.reg.m[k], v'.reg.m[k]) {
      ChangedFields(v.reg, id, to, seqNo, now, k);
    }
    FieldsStep(v, v');
  }

  lemma StateChangeStep(v: IngestVal, fr: DaemonFrame, env: Env)
    requires IngestInv(v) && fr.SessionStateChange?
    ensures IngestInv(HandleStateChange(v, fr, env)) && RegGrows(v.reg, HandleStateChange(v, fr, env).reg)
  {
    SetAndRaised(v, fr.id, fr.to, fr.seqNo, env.now);
    var v' := v.(reg := RaiseSeq(SetState(v.reg, fr.id, fr.to, env.now), fr.id, fr.seqNo, env.now));
    OtherPushKeeps(v', fr.id, StatePush(fr.id, fr.to));
  }

  lemma EndedStep(v: IngestVal, fr: DaemonFrame, env: Env)
    requires IngestInv(v) && fr.SessionEnded?
    ensures IngestInv(HandleEnded(v, fr, env)) && RegGrows(v.reg, HandleEnded(v, fr, env).reg)
  {
    var v' := v.(reg := MarkEnded(RaiseSeq(v.reg, fr.id, fr.seqNo, env.now), fr.id, env.now));
    forall k | k in v.reg.m ensures v'.reg.m.Keys == v.reg.m.Keys && FieldsOnly(v.reg.m[k], v'.reg.m[k]) {
      EndedFields(v.reg, fr.id, fr.seqNo, env.now, k);
    }
    FieldsStep(v, v');
    OtherPushKeeps(v', fr.id, EndedPush(fr.id));
  }

  lemma RegisterStep(v: IngestVal, id: string, machineID: string, now: nat)
    requires IngestInv(v)
    ensures var v' := v.(reg := Register(v.reg, id, machineID, now)); IngestInv(v') && RegGrows(v.reg, v'.reg)
  {
    RegistryRuns.RegisterKeeps(v.reg, id, machineID, now);
    RegisterSeq(v.reg, id, machineID, now);
    PushesKeep(v, v.(reg := Register(v.reg, id, machineID, now)));
  }

  lemma GrowsTransitive(a: RegVal, b: RegVal, c: RegVal)
    requires SeqInv(a) && RegGrows(a, b) && RegGrows(b, c)
    ensures RegGrows(a, c)
  {
    forall id | id in a.m ensures id in c.m && Grows(a.m[id], c.m[id]) {
      assert a.m[id].epoch < a.epochs;
      assert Grows(a.m[id], b.m[id]) && Grows(b.m[id], c.m[id]);
    }
  }

  lemma RaiseStep(v: IngestVal, id: string, seqNo: int64, now: nat)
    requires IngestInv(v)
    ensures var v' := v.(reg := RaiseSeq(v.reg, id, seqNo, now)); IngestInv(v') && RegGrows(v.reg, v'.reg)
  {
    var v' := v.(reg := RaiseSeq(v.reg, id, seqNo, now));
    forall k | k in v.reg.m ensures FieldsOnly(v.reg.m[k], v'.reg.m[k]) {
      assert SeqOrdered(v.reg.m[k]);
    }
    FieldsStep(v, v');
  }

  lemma ResumeStep(v: IngestVal, id: string, machineID: string, last: int64, now: nat)
    requires IngestInv(v)
    ensures var v' := v.(reg := Resume(v.reg, id, machineID, last, now)); IngestInv(v') && RegGrows(v.reg, v'.reg)
  {
    var reg1 := if id in v.reg.m then SetState(v.reg, id, Running, now) else Register(v.reg, id, machineID, now);
    var v1 := v.(reg := reg1);
    if id in v.reg.m {
      forall k | k in v.reg.m ensures FieldsOnly(v.reg.m[k], v1.reg.m[k]) {
        assert SeqOrdered(v.reg.m[k]);
      }
      FieldsStep(v, v1);
    } else {
      RegisterStep(v, id, machineID, now);
    }
    RaiseStep(v1, id, last, now);
    GrowsTransitive(v.reg, v1.reg, RaiseSeq(v1.reg, id, last, now));
  }

  lemma PauseStep(v: IngestVal, machineID: string, now: nat)
    requires IngestInv(v)
    ensures var v' := v.(reg := PauseAllForMachine(v.reg, machineID, now)); IngestInv(v') && RegGrows(v.reg, v'.reg)
  {
    var v' := v.(reg := PauseAllForMachine(v.reg, machineID, now));
    forall k | k in v.reg.m ensures FieldsOnly(v.reg.m[k], v'.reg.m[k]) {
      assert SeqOrdered(v.reg.m[k]);
    }
    FieldsStep(v, v');
  }

  ghost predicate Keeps(v: IngestVal, v': IngestVal) {
    IngestInv(v') && RegGrows(v.reg, v'.reg)
  }

  /** A frame that concerns one session and its number. */
  lemma SessionFrameStep(v: IngestVal, conn: ConnId, fr: DaemonFrame, env: Env)
    requires IngestInv(v) && Listed(v, env)
    requires fr.SessionEvent? || fr.SessionPty? || fr.SessionStateChange? || fr.SessionEnded?
    ensures Keeps(v, Dispatch(v, conn, fr, env).0)
  {
    match fr {
      case SessionEvent(_, _, _, _, _) => EventStep(v, fr, env);
      case SessionPty(id, seqNo, ts, raw) => IngestStep(v, id, seqNo, PtyEntry, ts, raw, env);
      case SessionStateChange(_, _, _) => StateChangeStep(v, fr, env);
      case SessionEnded(_, _) => EndedStep(v, fr, env);
    }
  }

  lemma DispatchStep(v: IngestVal, conn: ConnId, fr: DaemonFrame, env: Env)
    requires IngestInv(v) && Listed(v, env)
    ensures Keeps(v, Dispatch(v, conn, fr, env).0)
  {
    if fr.SessionEvent? || fr.SessionPty? || fr.SessionStateChange? || fr.SessionEnded? {
      SessionFrameStep(v, conn, fr, env);
    } else {
      GrowsRefl(v.reg);
      match fr {
        case SessionStarted(id, machineID) => RegisterStep(v, id, machineID, env.now);
        case SessionResume(id, last) => ResumeStep(v, id, StateFor(v, conn).machineID, last, env.now);
        case MachineSuspending => PauseStep(v, StateFor(v, conn).machineID, env.now);
        case _ =>
      }
    }
  }

  lemma HandleStep(v: IngestVal, conn: ConnId, fr: DaemonFrame, env: Env)
    requires IngestInv(v) && Listed(v, env)
    ensures IngestInv(Handle(v, conn, fr, env).0) && RegGrows(v.reg, Handle(v, conn, fr, env).0.reg)
  {
    GrowsRefl(v.reg);
    DispatchStep(v.(conns := v.conns[conn := StateFor(v, conn)]), conn, fr, env);
  }

  /** The first-frame gate: a connection that has not registered changes nothing but its own entry. */
  lemma GateHolds(v: IngestVal, conn: ConnId, fr: DaemonFrame, env: Env)
    requires v.reg.floor >= 0 && Listed(v, env)
    requires !StateFor(v, conn).registered && !fr.MachineRegister?
    ensures var (v', err) := Handle(v, conn, fr, env);
            && v'.reg == v.reg && v'.pushes == v.pushes && !StateFor(v', conn).registered
            && (err == Some(FirstFrameNotRegister) || err == Some(MalformedFrame))
  {
  }

  // ---------------------------------------------------------------------------------------------
  // Runs
  // ---------------------------------------------------------------------------------------------

  /** A frame arrives, a daemon connection is lost, or a client attaches to or leaves a session. */
  datatype Step =
    | Received(conn: ConnId, fr: DaemonFrame, env: Env)
    | Closed(conn: ConnId, now: nat)
    | Touched(id: string, now: nat)

  ghost predicate Enabled(v: IngestVal, step: Step) {
    v.reg.floor >= 0 && (step.Received? ==> Listed(v, step.env))
  }

  function Do(v: IngestVal, step: Step): IngestVal
    requires Enabled(v, step)
  {
    match step
    case Received(conn, fr, env) => Handle(v, conn, fr, env).0
    case Closed(conn, now) => CloseConn(v, conn, now)
    case Touched(id, now) => v.(reg := Touch(v.reg, id, now))
  }

  ghost predicate IsRun(trace: seq<IngestVal>, steps: seq<Step>, cap: int, floor: int) {
    && |trace| == |steps| + 1
    && trace[0] == IngestVal(RegVal(map[], cap, floor, 0), map[], [])
    && forall i :: 0 <= i < |steps| ==> Enabled(trace[i], steps[i]) && trace[i + 1] == Do(trace[i], steps[i])
  }

  lemma ForgetStep(v: IngestVal, conn: ConnId)
    requires IngestInv(v)
    ensures IngestInv(ForgetConn(v, conn))
  {
    GrowsRefl(v.reg);
    PushesKeep(v, ForgetConn(v, conn));
  }

  lemma CloseStep(v: IngestVal, conn: ConnId, now: nat)
    requires IngestInv(v)
    ensures IngestInv(CloseConn(v, conn, now)) && RegGrows(v.reg, CloseConn(v, conn, now).reg)
  {
    var st := StateFor(v, conn);
    GrowsRefl(v.reg);
    if st.registered {
      PauseStep(v, st.machineID, now);
      ForgetStep(v.(reg := PauseAllForMachine(v.reg, st.machineID, now)), conn);
    } else {
      ForgetStep(v, conn);
    }
  }

  /** Losing a connection leaves every ring and every number as it is. */
  lemma CloseKeepsNumbers(v: IngestVal, conn: ConnId, now: nat)
    ensures CloseConn(v, conn, now).reg.m.Keys == v.reg.m.Keys
    ensures forall id :: id in v.reg.m ==>
              var s := CloseConn(v, conn, now).reg.m[id];
              s.ring == v.reg.m[id].ring && s.lastSeq == v.reg.m[id].lastSeq
  {
    assert forall id :: id in v.reg.m ==> id in PauseAllForMachine(v.reg, StateFor(v, conn).machineID, now).m;
  }

  lemma TouchFields(reg: RegVal, id: string, now: nat, k: string)
    requires k in reg.m && SeqOrdered(reg.m[k])
    ensures var w := Touch(reg, id, now); w == reg.(m := w.m) && w.m.Keys == reg.m.Keys && FieldsOnly(reg.m[k], w.m[k])
  {
  }

  lemma TouchStep(v: IngestVal, id: string, now: nat)
    requires IngestInv(v)
    ensures IngestInv(v.(reg := Touch(v.reg, id, now))) && RegGrows(v.reg, Touch(v.reg, id, now))
  {
    var reg := Touch(v.reg, id, now);
    forall k | k in v.reg.m ensures reg.m.Keys == v.reg.m.Keys && FieldsOnly(v.reg.m[k], reg.m[k]) {
      TouchFields(v.reg, id, now, k);
    }
    FieldsStep(v, v.(reg := reg));
  }

  /** A client that comes or goes leaves every ring and every number as it is. */
  lemma TouchKeepsNumbers(reg: RegVal, id: string, now: nat)
    ensures Touch(reg, id, now).m.Keys == reg.m.Keys
    ensures forall k :: k in reg.m ==>
              var s := Touch(reg, id, now).m[k];
              s.ring == reg.m[k].ring && s.lastSeq == reg.m[k].lastSeq
  {
  }

  lemma StepKeeps(v: IngestVal, step: Step)
    requires IngestInv(v) && Enabled(v, step)
    ensures IngestInv(Do(v, step)) && RegGrows(v.reg, Do(v, step).reg)
  {
    match step {
      case Received(conn, fr, env) => HandleStep(v, conn, fr, env);
      case Closed(conn, now) => CloseStep(v, conn, now);
      case Touched(id, now) => TouchStep(v, id, now);
    }
  }

  lemma {:induction false} RunKeeps(trace: seq<IngestVal>, steps: seq<Step>, cap: int, floor: int, i: nat)
    requires IsRun(trace, steps, cap, floor) && 0 < floor <= cap && i < |trace|
    ensures IngestInv(trace[i])
  {
    if i > 0 {
      RunKeeps(trace, steps, cap, floor, i - 1);
      StepKeeps(trace[i - 1], steps[i - 1]);
    }
  }

  lemma {:induction false} RunGrows(trace: seq<IngestVal>, steps: seq<Step>, cap: int, floor: int, i: nat, j: nat)
    requires IsRun(trace, steps, cap, floor) && 0 < floor <= cap && i <= j < |trace|
    ensures RegGrows(trace[i].reg, trace[j].reg)
    decreases j
  {
    RunKeeps(trace, steps, cap, floor, i);
    if i < j {
      RunGrows(trace, steps, cap, floor, i, j - 1);
      RunKeeps(trace, steps, cap, floor, j - 1);
      StepKeeps(trace[j - 1], steps[j - 1]);
      GrowsTransitive(trace[i].reg, trace[j - 1].reg, trace[j].reg);
    } else {
      GrowsRefl(trace[i].reg);
    }
  }

  /** Ring numbers are strictly ascending, positive and at most LastSeq, whatever was received. */
  lemma RingsFollowTheGate(trace: seq<IngestVal>, steps: seq<Step>, cap: int, floor: int, i: nat, id: string)
    requires IsRun(trace, steps, cap, floor) && 0 < floor <= cap && i < |trace| && id in trace[i].reg.m
    ensures var s := trace[i].reg.m[id];
            && (forall j, k :: 0 <= j < k < |s.ring.history| ==> s.ring.history[j].seqNo < s.ring.history[k].seqNo)
            && (forall j :: 0 <= j < |s.ring.history| ==> 0 < s.ring.history[j].seqNo <= s.lastSeq)
  {
    RunKeeps(trace, steps, cap, floor, i);
    assert SeqOrdered(trace[i].reg.m[id]);
  }

  /** LastSeq never falls and history is never rewritten while the session object stays the same. */
  lemma LastSeqNeverFalls(trace: seq<IngestVal>, steps: seq<Step>, cap: int, floor: int, i: nat, j: nat, id: string)
    requires IsRun(trace, steps, cap, floor) && 0 < floor <= cap && i <= j < |trace| && id in trace[i].reg.m
    ensures id in trace[j].reg.m
    ensures trace[j].reg.m[id].epoch == trace[i].reg.m[id].epoch ==>
              && trace[i].reg.m[id].lastSeq <= trace[j].reg.m[id].lastSeq
              && IsPrefix(trace[i].reg.m[id].ring.history, trace[j].reg.m[id].ring.history)
  {
    RunGrows(trace, steps, cap, floor, i, j);
    assert Grows(trace[i].reg.m[id], trace[j].reg.m[id]);
  }

  /** No two event pushes of a run come from the same session object and number. */
  lemma OneEventPushPerNumber(trace: seq<IngestVal>, steps: seq<Step>, cap: int, floor: int, i: nat, a: nat, b: nat)
    requires IsRun(trace, steps, cap, floor) && 0 < floor <= cap && i < |trace|
    requires a < |trace[i].pushes| && b < |trace[i].pushes|
    requires trace[i].pushes[a].EventPush? && trace[i].pushes[b].EventPush?
    requires trace[i].pushes[a].epoch == trace[i].pushes[b].epoch
    requires trace[i].pushes[a].seqNo == trace[i].pushes[b].seqNo
    ensures a == b
  {
    RunKeeps(trace, steps, cap, floor, i);
  }

  /** On the coordinator's own numbers a successful replay is always complete. */
  lemma ReplayIsComplete(trace: seq<IngestVal>, steps: seq<Step>, cap: int, floor: int, i: nat, id: string,
                         lastSeq: uint64)
    requires IsRun(trace, steps, cap, floor) && 0 < floor <= cap && i < |trace| && id in trace[i].reg.m
    requires lastSeq > 0
    ensures var w := trace[i].reg.m[id].ring;
            Replay(w, lastSeq).ok ==> Replay(w, lastSeq).entries == After(w.history, lastSeq)
  {
    RunKeeps(trace, steps, cap, floor, i);
    var s := trace[i].reg.m[id];
    assert SeqOrdered(s) && Budgeted(s.ring, trace[i].reg.cap, trace[i].reg.floor);
    ReplayComplete(s.ring, lastSeq);
  }

  /** On the coordinator's own numbers a client is answered if and only if the oldest entry it still
      has is at most the first number the client needs, or it has none and none is news. */
  lemma ReplayAnswered(trace: seq<IngestVal>, steps: seq<Step>, cap: int, floor: int, i: nat, id: string,
                       lastSeq: uint64)
    requires IsRun(trace, steps, cap, floor) && 0 < floor <= cap && i < |trace| && id in trace[i].reg.m
    requires 0 < lastSeq < MAX_UINT64
    ensures var w := trace[i].reg.m[id].ring;
            Replay(w, lastSeq).ok <==>
            if w.contents != [] then w.contents[0].seqNo <= lastSeq + 1
            else forall k :: 0 <= k < |w.history| ==> w.history[k].seqNo <= lastSeq
  {
    RunKeeps(trace, steps, cap, floor, i);
    var s := trace[i].reg.m[id];
    assert SeqOrdered(s) && Budgeted(s.ring, trace[i].reg.cap, trace[i].reg.floor);
    AnsweredByNumbers(s.ring, lastSeq);
  }

  lemma AnsweredByNumbers(w: Window, lastSeq: uint64)
    requires Consistent(w) && Ascending(w.history) && Positive(w.history) && 0 < lastSeq < MAX_UINT64
    requires w.history != [] ==> w.history[|w.history| - 1].seqNo != MAX_UINT64
    ensures Replay(w, lastSeq).ok <==>
            if w.contents != [] then w.contents[0].seqNo <= lastSeq + 1
            else forall k :: 0 <= k < |w.history| ==> w.history[k].seqNo <= lastSeq
  {
    ReplayAnsweredExactly(w, lastSeq);
    if w.contents == [] && w.history != [] {
      var n := |w.history| - 1;
      assert forall k :: 0 <= k < n ==> w.history[k].seqNo < w.history[n].seqNo;
    }
  }

  /** The cache budget over every run of the ingestor. */
  lemma RunMeetsBudget(trace: seq<IngestVal>, steps: seq<Step>, cap: int, floor: int, i: nat)
    requires IsRun(trace, steps, cap, floor) && 0 < floor <= cap && i < |trace|
    ensures var reg := trace[i].reg;
            TotalBytes(reg.m) <= reg.cap ||
            forall id :: id in reg.m && !reg.m[id].ended ==> Size(reg.m[id].ring.contents) <= reg.floor
  {
    RunKeeps(trace, steps, cap, floor, i);
  }

  // ---------------------------------------------------------------------------------------------
  // Sessions do not disturb each other
  // ---------------------------------------------------------------------------------------------

  function About(fr: DaemonFrame): Option<string> {
    match fr
    case SessionStarted(id, _) => Some(id)
    case SessionEvent(id, _, _, _, _) => Some(id)
    case SessionPty(id, _, _, _) => Some(id)
    case SessionStateChange(id, _, _) => Some(id)
    case SessionEnded(id, _) => Some(id)
    case SessionResume(id, _) => Some(id)
    case _ => None
  }

  /** Session `k` is as before, but for budget and oldest entries of its ring. */
  ghost predicate OnlyEvictedIn(a: RegVal, b: RegVal, k: string)
    requires k in a.m
  {
    k in b.m && RegistryRuns.OnlyEvicted(a.m[k], b.m[k], a.floor)
  }

  lemma RaiseLeavesOthers(reg: RegVal, id: string, seqNo: int64, now: nat, other: string)
    requires other in reg.m && other != id
    ensures var w := RaiseSeq(reg, id, seqNo, now);
            w.m.Keys == reg.m.Keys && w.m[other] == reg.m[other] && w.floor == reg.floor
  {
  }

  lemma IngestLeavesOthers(reg: RegVal, id: string, seqNo: int64, kind: EntryKind, ts: int, raw: seq<byte>, env: Env,
                           other: string)
    requires reg.floor >= 0 && Enumerates(env.order, reg.m.Keys) && other in reg.m && other != id
    ensures OnlyEvictedIn(reg, Ingest(reg, id, seqNo, kind, ts, raw, env), other)
  {
    if Advances(reg, id, seqNo) {
      RaiseLeavesOthers(reg, id, seqNo, env.now, other);
      var reg1, e := RaiseSeq(reg, id, seqNo, env.now), Entry(ToUint64(seqNo), kind, ts, raw);
      RegistryRuns.PublishLeavesOthers(reg1, id, e, env.now, env.order, env.f, other);
    }
  }

  lemma EventLeavesOthers(v: IngestVal, fr: DaemonFrame, env: Env, other: string)
    requires v.reg.floor >= 0 && Listed(v, env) && fr.SessionEvent? && other in v.reg.m && other != fr.id
    ensures OnlyEvictedIn(v.reg, HandleEvent(v, fr, env).reg, other)
  {
    IngestLeavesOthers(v.reg, fr.id, fr.seqNo, EventEntry, fr.ts, fr.raw, env, other);
    assert HandleEvent(v, fr, env).reg == Ingest(v.reg, fr.id, fr.seqNo, EventEntry, fr.ts, fr.raw, env);
  }

  lemma MarksLeaveOthers(v: IngestVal, fr: DaemonFrame, env: Env, other: string)
    requires fr.SessionStateChange? || fr.SessionEnded?
    requires other in v.reg.m && other != fr.id
    ensures fr.SessionStateChange? ==> OnlyEvictedIn(v.reg, HandleStateChange(v, fr, env).reg, other)
    ensures fr.SessionEnded? ==> OnlyEvictedIn(v.reg, HandleEnded(v, fr, env).reg, other)
  {
  }

  lemma ResumeLeavesOthers(reg: RegVal, id: string, machineID: string, last: int64, now: nat, other: string)
    requires other in reg.m && other != id
    ensures OnlyEvictedIn(reg, Resume(reg, id, machineID, last, now), other)
  {
  }

  lemma DispatchLeavesOthers(v: IngestVal, conn: ConnId, fr: DaemonFrame, env: Env, other: string)
    requires v.reg.floor >= 0 && Listed(v, env) && About(fr).Some? && other in v.reg.m && other != About(fr).value
    ensures OnlyEvictedIn(v.reg, Dispatch(v, conn, fr, env).0.reg, other)
  {
    match fr {
      case SessionEvent(_, _, _, _, _) => EventLeavesOthers(v, fr, env, other);
      case SessionPty(id, seqNo, ts, raw) => IngestLeavesOthers(v.reg, id, seqNo, PtyEntry, ts, raw, env, other);
      case SessionResume(id, last) => ResumeLeavesOthers(v.reg, id, StateFor(v, conn).machineID, last, env.now, other);
      case SessionStarted(_, _) =>
      case _ => MarksLeaveOthers(v, fr, env, other);
    }
  }

  /** A frame about one session changes another one at most by evicting its oldest entries. */
  lemma OthersOnlyEvicted(v: IngestVal, conn: ConnId, fr: DaemonFrame, env: Env, id: string, other: string)
    requires v.reg.floor >= 0 && Listed(v, env) && About(fr) == Some(id) && other in v.reg.m && other != id
    ensures OnlyEvictedIn(v.reg, Handle(v, conn, fr, env).0.reg, other)
  {
    DispatchLeavesOthers(v.(conns := v.conns[conn := StateFor(v, conn)]), conn, fr, env, other);
  }
}
