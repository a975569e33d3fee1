/**
 Dispatch of decoded daemon frames into the registry. One call of `Handle` is one step.
 The invariant ties every ring and every event push to the sequence gate.
 */
module IngestSpec {
  import opened Base
  import opened Ring
  import opened Balance
  import opened RegistrySpec
  import RegistryRuns

  type int64 = x: int | -0x8000_0000_0000_0000 <= x < 0x8000_0000_0000_0000

  /** Go's conversion from int to uint64. */
  function ToUint64(x: int64): uint64 {
    if x < 0 then x + TWO_64 else x
  }

  datatype EventKind =
    | AgentStart | AgentEnd | AttentionDialog | CompactionStart | CompactionEnd
    | ExtensionError | ModelSelect | QueueUpdate | ToolFailure

  datatype DaemonFrame =
    | NotAnObject
    | BadBody(isRegister: bool)       // an object whose body does not decode as its type demands
    | MachineRegister(machineID: string)
    | SessionStarted(id: string, machineID: string)
    | SessionEvent(id: string, seqNo: int64, kind: EventKind, ts: int, raw: seq<byte>)
    | SessionPty(id: string, seqNo: int64, ts: int, raw: seq<byte>)
    | SessionStateChange(id: string, seqNo: int64, to: Status)
    | SessionEnded(id: string, seqNo: int64)
    | SessionResume(id: string, lastSeqEmitted: int64)
    | SpawnResponse
    | MachineSuspending
    | UnknownType

  type ConnId = nat

  datatype ConnState = ConnState(registered: bool, machineID: string)

  datatype Push =
    | EventPush(id: string, epoch: nat, seqNo: int, kind: EventKind)
    | StatePush(id: string, to: Status)
    | EndedPush(id: string)

  datatype HandleError = FirstFrameNotRegister | MalformedFrame

  datatype IngestVal = IngestVal(reg: RegVal, conns: map<ConnId, ConnState>, pushes: seq<Push>)

  /** What a call of Handle may read besides the frame: the clock, a map order, the rounding. */
  datatype Env = Env(now: nat, order: seq<string>, f: Scale)

  predicate FiresPush(kind: EventKind) {
    kind.AttentionDialog? || kind.ToolFailure? || kind.QueueUpdate? || kind.ExtensionError? || kind.CompactionEnd?
  }

  /** The gate and the publication shared by events and pty chunks. */
  function Ingest(reg: RegVal, id: string, seqNo: int64, kind: EntryKind, ts: int, raw: seq<byte>, env: Env): RegVal
    requires reg.floor >= 0 && forall k :: k in env.order <==> k in reg.m
  {
    if !Advances(reg, id, seqNo) then reg
    else
      Publish(RaiseSeq(reg, id, seqNo, env.now), id, Entry(ToUint64(seqNo), kind, ts, raw), env.now, env.order, env.f)
  }

  function NotifyPush(v: IngestVal, id: string, p: Push): IngestVal {
    if id in v.reg.m then v.(pushes := v.pushes + [p]) else v
  }

  function HandleEvent(v: IngestVal, fr: DaemonFrame, env: Env): IngestVal
    requires fr.SessionEvent? && v.reg.floor >= 0 && forall k :: k in env.order <==> k in v.reg.m
  {
    var v' := v.(reg := Ingest(v.reg, fr.id, fr.seqNo, EventEntry, fr.ts, fr.raw, env));
    if Advances(v.reg, fr.id, fr.seqNo) && FiresPush(fr.kind)
    then NotifyPush(v', fr.id, EventPush(fr.id, v.reg.m[fr.id].epoch, fr.seqNo, fr.kind))
    else v'
  }

  function HandleStateChange(v: IngestVal, fr: DaemonFrame, env: Env): IngestVal
    requires fr.SessionStateChange?
  {
    var v' := v.(reg := RaiseSeq(SetState(v.reg, fr.id, fr.to, env.now), fr.id, fr.seqNo, env.now));
    if fr.to.Idle? || fr.to.Unresponsive? then NotifyPush(v', fr.id, StatePush(fr.id, fr.to)) else v'
  }

  function HandleEnded(v: IngestVal, fr: DaemonFrame, env: Env): IngestVal
    requires fr.SessionEnded?
  {
    NotifyPush(v.(reg := MarkEnded(RaiseSeq(v.reg, fr.id, fr.seqNo, env.now), fr.id, env.now)), fr.id, EndedPush(fr.id))
  }

  /** A known session keeps its ring; an unknown one starts afresh under the connection's machine. */
  function Resume(reg: RegVal, id: string, machineID: string, last: int64, now: nat): RegVal {
    RaiseSeq(if id in reg.m then SetState(reg, id, Running, now) else Register(reg, id, machineID, now), id, last, now)
  }

  function StateFor(v: IngestVal, conn: ConnId): ConnState {
    if conn in v.conns then v.conns[conn] else ConnState(false, "")
  }

  function Dispatch(v: IngestVal, conn: ConnId, fr: DaemonFrame, env: Env): (IngestVal, Option<HandleError>)
    requires v.reg.floor >= 0 && forall k :: k in env.order <==> k in v.reg.m
  {
    match fr
    case NotAnObject => (v, Some(MalformedFrame))
    case BadBody(_) => (v, Some(MalformedFrame))
    case MachineRegister(machineID) => (v.(conns := v.conns[conn := ConnState(true, machineID)]), None)
    case SessionStarted(id, machineID) => (v.(reg := Register(v.reg, id, machineID, env.now)), None)
    case SessionEvent(_, _, _, _, _) => (HandleEvent(v, fr, env), None)
    case SessionPty(id, seqNo, ts, raw) => (v.(reg := Ingest(v.reg, id, seqNo, PtyEntry, ts, raw, env)), None)
    case SessionStateChange(_, _, _) => (HandleStateChange(v, fr, env), None)
    case SessionEnded(_, _) => (HandleEnded(v, fr, env), None)
    case SessionResume(id, last) => (v.(reg := Resume(v.reg, id, StateFor(v, conn).machineID, last, env.now)), None)
    case SpawnResponse => (v, None)
    case MachineSuspending => (v.(reg := PauseAllForMachine(v.reg, StateFor(v, conn).machineID, env.now)), None)
    case UnknownType => (v, None)
  }

  predicate IsRegister(fr: DaemonFrame) {
    fr.MachineRegister? || (fr.BadBody? && fr.isRegister)
  }

  function Handle(v: IngestVal, conn: ConnId, fr: DaemonFrame, env: Env): (IngestVal, Option<HandleError>)
    requires v.reg.floor >= 0 && forall k :: k in env.order <==> k in v.reg.m
  {
    if fr.NotAnObject? then (v, Some(MalformedFrame))
    else
      var v1 := v.(conns := v.conns[conn := StateFor(v, conn)]);
      if !StateFor(v, conn).registered && !IsRegister(fr) then (v1, Some(FirstFrameNotRegister))
      else Dispatch(v1, conn, fr, env)
  }

  function ForgetConn(v: IngestVal, conn: ConnId): IngestVal {
    v.(conns := v.conns - {conn})
  }

  /** A daemon connection has gone: the sessions of the machine it registered are paused, and its
      entry is forgotten. */
  function CloseConn(v: IngestVal, conn: ConnId, now: nat): IngestVal {
    var st := StateFor(v, conn);
    ForgetConn(if st.registered then v.(reg := PauseAllForMachine(v.reg, st.machineID, now)) else v, conn)
  }

  // ---------------------------------------------------------------------------------------------
  // The invariant
  // ---------------------------------------------------------------------------------------------

  /** Ring entries are numbered upwards and never beyond LastSeq. */
  ghost predicate SeqOrdered(s: SessionVal) {
    && 0 <= s.lastSeq < 0x8000_0000_0000_0000
    && Ascending(s.ring.history) && Positive(s.ring.history)
    && forall i :: 0 <= i < |s.ring.history| ==> s.ring.history[i].seqNo <= s.lastSeq
  }

  ghost predicate SeqInv(reg: RegVal) {
    && (forall id :: id in reg.m ==> SeqOrdered(reg.m[id]) && reg.m[id].epoch < reg.epochs)
    && (forall a, b :: a in reg.m && b in reg.m && reg.m[a].epoch == reg.m[b].epoch ==> a == b)
  }

  /** Event pushes come from session objects that exist or existed, with numbers already passed. */
  ghost predicate PushInv(v: IngestVal) {
    && (forall p :: p in v.pushes && p.EventPush? ==> p.epoch < v.reg.epochs)
    && (forall p, id :: p in v.pushes && p.EventPush? && id in v.reg.m && v.reg.m[id].epoch == p.epoch ==>
          p.seqNo <= v.reg.m[id].lastSeq)
    && (forall i, j :: 0 <= i < j < |v.pushes| && v.pushes[i].EventPush? && v.pushes[j].EventPush? ==>
          v.pushes[i].epoch != v.pushes[j].epoch || v.pushes[i].seqNo != v.pushes[j].seqNo)
  }

  ghost predicate IngestInv(v: IngestVal) {
    RegistryRuns.Inv(v.reg) && SeqInv(v.reg) && PushInv(v)
  }

  /** How a session object may change in one step: its number never falls and its history only grows.
      Session objects never change their epoch, so a fresh registration is the only way back. */
  ghost predicate Grows(a: SessionVal, b: SessionVal) {
    a.epoch == b.epoch ==> a.lastSeq <= b.lastSeq && IsPrefix(a.ring.history, b.ring.history)
  }

  ghost predicate RegGrows(a: RegVal, b: RegVal) {
    && b.cap == a.cap && b.floor == a.floor && a.epochs <= b.epochs
    && (forall id :: id in a.m ==> id in b.m && Grows(a.m[id], b.m[id]))
    && (forall id :: id in b.m ==> b.m[id].epoch >= a.epochs || (id in a.m && b.m[id].epoch == a.m[id].epoch))
  }

  // ---------------------------------------------------------------------------------------------
  // One lemma per kind of change
  // ---------------------------------------------------------------------------------------------

  lemma RegisterSeq(reg: RegVal, id: string, machineID: string, now: nat)
    requires SeqInv(reg)
    ensures SeqInv(Register(reg, id, machineID, now)) && RegGrows(reg, Register(reg, id, machineID, now))
  {
    var reg' := Register(reg, id, machineID, now);
    forall k | k in reg.m ensures k in reg'.m && Grows(reg.m[k], reg'.m[k]) {
    }
  }

  /** Any change of session fields that keeps rings, objects and ends, and never lowers LastSeq. */
  ghost predicate FieldsOnly(a: SessionVal, b: SessionVal) {
    && b.ring == a.ring && b.epoch == a.epoch && (a.ended ==> b.ended)
    && a.lastSeq <= b.lastSeq < 0x8000_0000_0000_0000
  }

  lemma FieldsSeq(reg: RegVal, reg': RegVal)
    requires SeqInv(reg)
    requires reg' == reg.(m := reg'.m) && reg'.m.Keys == reg.m.Keys
    requires forall id :: id in reg.m ==> FieldsOnly(reg.m[id], reg'.m[id])
    ensures SeqInv(reg') && RegGrows(reg, reg')
  {
    forall id | id in reg.m ensures SeqOrdered(reg'.m[id]) && Grows(reg.m[id], reg'.m[id]) {
      assert FieldsOnly(reg.m[id], reg'.m[id]);
    }
    SeqFromParts(reg, reg');
  }

  lemma SeqFromParts(reg: RegVal, reg': RegVal)
    requires SeqInv(reg) && reg' == reg.(m := reg'.m) && reg'.m.Keys == reg.m.Keys
    requires forall id :: id in reg.m ==>
      SeqOrdered(reg'.m[id]) && Grows(reg.m[id], reg'.m[id]) && reg'.m[id].epoch == reg.m[id].epoch
    ensures SeqInv(reg') && RegGrows(reg, reg')
  {
  }

  lemma AppendToAt(reg: RegVal, id: string, e: Entry, now: nat, k: string)
    requires id in reg.m && k in reg.m
    ensures var reg1 := AppendTo(reg, id, e, now);
            && reg1.m.Keys == reg.m.Keys && reg1.floor == reg.floor
            && reg1.m[k] == reg.m[k].(ring := reg1.m[k].ring, touched := reg1.m[k].touched)
            && reg1.m[k].ring.history == reg.m[k].ring.history + if k == id then [e] else []
  {
    assert reg.m[k].ring.history + [] == reg.m[k].ring.history;
  }

  lemma PublishHistories(reg: RegVal, id: string, e: Entry, env: Env, k: string)
    requires RegistryRuns.RingsBudgeted(reg) && Enumerates(env.order, reg.m.Keys) && id in reg.m && k in reg.m
    ensures var reg' := Publish(reg, id, e, env.now, env.order, env.f);
            && reg'.m.Keys == reg.m.Keys
            && reg'.m[k] == reg.m[k].(ring := reg'.m[k].ring, touched := reg'.m[k].touched)
            && reg'.m[k].ring.history == reg.m[k].ring.history + if k == id then [e] else []
  {
    var reg1 := AppendTo(reg, id, e, env.now);
    AppendToAt(reg, id, e, env.now, k);
    RegistryRuns.RebalanceEvictsOnly(reg1, id, env.order, env.f, k);
    RegistryRuns.RebalanceItems(reg1, id, env.order, env.f);
  }

  lemma AppendedOrdered(s: SessionVal, e: Entry)
    requires SeqOrdered(s) && s.lastSeq < e.seqNo < 0x8000_0000_0000_0000
    ensures Ascending(s.ring.history + [e]) && Positive(s.ring.history + [e])
    ensures forall i :: 0 <= i < |s.ring.history| + 1 ==> (s.ring.history + [e])[i].seqNo <= e.seqNo
  {
  }

  lemma PublishSeq(reg: RegVal, id: string, e: Entry, env: Env, k: string)
    requires RegistryRuns.RingsBudgeted(reg) && Enumerates(env.order, reg.m.Keys) && id in reg.m && k in reg.m
    requires SeqOrdered(if k == id then reg.m[k].(lastSeq := e.seqNo - 1) else reg.m[k])
    requires 0 < e.seqNo == reg.m[id].lastSeq < 0x8000_0000_0000_0000
    ensures var reg' := Publish(reg, id, e, env.now, env.order, env.f);
            && reg'.m.Keys == reg.m.Keys && SeqOrdered(reg'.m[k])
            && reg'.m[k].lastSeq == reg.m[k].lastSeq && reg'.m[k].epoch == reg.m[k].epoch
            && IsPrefix(reg.m[k].ring.history, reg'.m[k].ring.history)
  {
    PublishHistories(reg, id, e, env, k);
    if k == id { AppendedOrdered(reg.m[id].(lastSeq := e.seqNo - 1), e); }
  }

  lemma RaiseSeqShape(reg: RegVal, id: string, seqNo: int64, now: nat)
    requires RegistryRuns.RingsBudgeted(reg)
    ensures RaiseSeq(reg, id, seqNo, now).m.Keys == reg.m.Keys
    ensures RegistryRuns.RingsBudgeted(RaiseSeq(reg, id, seqNo, now))
  {
  }

  lemma IngestShape(reg: RegVal, id: string, seqNo: int64, kind: EntryKind, ts: int, raw: seq<byte>, env: Env)
    requires reg.floor >= 0 && Enumerates(env.order, reg.m.Keys)
    ensures var reg' := Ingest(reg, id, seqNo, kind, ts, raw, env);
            reg' == reg.(m := reg'.m) && reg'.m.Keys == reg.m.Keys
  {
  }

  lemma RaisedAt(reg: RegVal, id: string, seqNo: int64, now: nat, k: string)
    requires Advances(reg, id, seqNo) && k in reg.m && SeqOrdered(reg.m[k]) && SeqOrdered(reg.m[id])
    ensures var w := RaiseSeq(reg, id, seqNo, now);
            && w.m.Keys == reg.m.Keys && w.m[k] == reg.m[k].(lastSeq := w.m[k].lastSeq, touched := w.m[k].touched)
            && w.m[k].lastSeq == (if k == id then seqNo else reg.m[k].lastSeq)
            && w.m[id].lastSeq == seqNo && seqNo > 0
            && SeqOrdered(if k == id then w.m[k].(lastSeq := seqNo - 1) else w.m[k])
  {
  }

  /** What one accepted frame for session `id` does to session `k`. */
  lemma IngestSession(reg: RegVal, id: string, seqNo: int64, kind: EntryKind, ts: int, raw: seq<byte>, env: Env,
                      k: string)
    requires RegistryRuns.RingsBudgeted(reg) && Enumerates(env.order, reg.m.Keys)
    requires Advances(reg, id, seqNo) && k in reg.m && SeqOrdered(reg.m[k]) && SeqOrdered(reg.m[id])
    ensures var reg' := Ingest(reg, id, seqNo, kind, ts, raw, env);
            && reg'.m.Keys == reg.m.Keys
            && SeqOrdered(reg'.m[k]) && reg'.m[k].epoch == reg.m[k].epoch
            && reg'.m[k].lastSeq == (if k == id then seqNo else reg.m[k].lastSeq)
            && IsPrefix(reg.m[k].ring.history, reg'.m[k].ring.history)
  {
    RaiseSeqShape(reg, id, seqNo, env.now);
    RaisedAt(reg, id, seqNo, env.now, k);
    PublishSeq(RaiseSeq(reg, id, seqNo, env.now), id, Entry(ToUint64(seqNo), kind, ts, raw), env, k);
  }

  lemma IngestSeq(reg: RegVal, id: string, seqNo: int64, kind: EntryKind, ts: int, raw: seq<byte>, env: Env)
    requires RegistryRuns.RingsBudgeted(reg) && SeqInv(reg) && Enumerates(env.order, reg.m.Keys)
    requires Advances(reg, id, seqNo)
    ensures var reg' := Ingest(reg, id, seqNo, kind, ts, raw, env);
            && SeqInv(reg') && RegGrows(reg, reg')
            && reg' == reg.(m := reg'.m) && reg'.m.Keys == reg.m.Keys
            && (forall k :: k in reg.m ==> reg'.m[k].epoch == reg.m[k].epoch)
            && reg'.m[id].lastSeq == seqNo
  {
    var reg' := Ingest(reg, id, seqNo, kind, ts, raw, env);
    IngestShape(reg, id, seqNo, kind, ts, raw, env);
    IngestSession(reg, id, seqNo, kind, ts, raw, env, id);
    forall k | k in reg.m
      ensures SeqOrdered(reg'.m[k]) && Grows(reg.m[k], reg'.m[k]) && reg'.m[k].epoch == reg.m[k].epoch
    {
      IngestSession(reg, id, seqNo, kind, ts, raw, env, k);
    }
    SeqFromParts(reg, reg');
  }

  lemma IngestBudget(reg: RegVal, id: string, seqNo: int64, kind: EntryKind, ts: int, raw: seq<byte>, env: Env)
    requires RegistryRuns.Inv(reg) && Enumerates(env.order, reg.m.Keys)
    ensures RegistryRuns.Inv(Ingest(reg, id, seqNo, kind, ts, raw, env))
  {
    if Advances(reg, id, seqNo) {
      var reg1 := RaiseSeq(reg, id, seqNo, env.now);
      assert reg1.m.Keys == reg.m.Keys;
      RegistryRuns.SameRingsKeeps(reg, reg1);
      RegistryRuns.PublishKeeps(reg1, id, Entry(ToUint64(seqNo), kind, ts, raw), env.now, env.order, env.f);
    }
  }
}
