/** The ingestor object, proved against `IngestSpec.Handle`. */
module Ingestors {
  import opened Base
  import opened Ring
  import opened Balance
  import opened Handover
  import opened Sessions
  import opened RegistrySpec
  import opened IngestSpec
  import opened SessionRegistry

  class Ingestor {
    const sessions: Registry
    var connState: map<ConnId, ConnState>
    ghost var pushes: seq<Push>    // notifications handed to the push hook
    const control: (DaemonFrame, string) -> seq<byte>        // the frame for clients, with the machine id added
    const paused: Status -> seq<byte>

    constructor (sessions: Registry, control: (DaemonFrame, string) -> seq<byte>, paused: Status -> seq<byte>)
      ensures this.sessions == sessions && connState == map[] && pushes == []
    {
      this.sessions, this.control, this.paused := sessions, control, paused;
      connState, pushes := map[], [];
    }

    /** The registry holds `v`, with well-formed rings, and `members` are the clients of its sessions. */
    ghost predicate Regs(v: RegVal, members: map<string, set<ClientConn>>, cs: set<ClientConn>)
      reads sessions, sessions.m.Values, sessions.SessionRings(), sessions.SessionSlices()
    {
      sessions.Is(v) && sessions.RingsOk() && sessions.ClientsHeld(members, cs)
    }

    /** The ingestor and its registry hold the value `v`. */
    ghost predicate Is(v: IngestVal)
      reads this, sessions, sessions.m.Values, sessions.SessionRings(), sessions.SessionSlices()
    {
      sessions.Is(v.reg) && sessions.RingsOk() && connState == v.conns && pushes == v.pushes
    }

    /** `members` are the clients of every session, all among `cs`. */
    ghost predicate Clients(members: map<string, set<ClientConn>>, cs: set<ClientConn>)
      reads sessions, sessions.m.Values`attachedClients
    {
      sessions.ClientsHeld(members, cs)
    }

    /** One session object is new, the others are the ones in `before`. */
    ghost predicate SessionAdded(before: map<string, Session>, id: string)
      reads sessions`m
    {
      id in sessions.m && sessions.m == before[id := sessions.m[id]]
    }

    /** The gate and the publication shared by events and pty chunks. An accepted entry is sent to
        each client of the session, and to nobody else. */
    method Ingest(id: string, seqNo: int64, kind: EntryKind, ts: int, raw: seq<byte>, now: nat, f: Scale,
                  ghost v: RegVal, ghost members: map<string, set<ClientConn>>, ghost cs: set<ClientConn>)
      returns (advanced: bool, ghost order: seq<string>, ghost made: set<object>)
      requires Regs(v, members, cs)
      modifies sessions`Repr, sessions.m.Values`lastSeq, sessions.m.Values`lastTouched
      modifies sessions.SessionRings(), sessions.SessionSlices(), cs`calls, cs`queue
      ensures Enumerates(order, v.m.Keys) && v.floor >= 0 && sessions.RingsOk()
      ensures sessions.Is(IngestSpec.Ingest(v, id, seqNo, kind, ts, raw, Env(now, order, f)))
      ensures advanced == Advances(v, id, seqNo)
      ensures CallsOf(cs) == DataCalls(old(CallsOf(cs)), v, id, seqNo, Entry(ToUint64(seqNo), kind, ts, raw), members)
      ensures Clients(members, cs)
      ensures sessions.Repr == old(sessions.Repr) + made && fresh(made) && unchanged(sessions`m)
    {
      advanced := sessions.AdvanceSeqHeld(id, seqNo, now, v, members, cs);
      if !advanced {
        order := AnyOrder(v);
        made := {};
        return;
      }
      order, made := PublishHeld(id, Entry(ToUint64(seqNo), kind, ts, raw), now, f, RaiseSeq(v, id, seqNo, now),
          members, cs);
    }

    method PublishHeld(id: string, e: Entry, now: nat, f: Scale, ghost v: RegVal,
                       ghost members: map<string, set<ClientConn>>, ghost cs: set<ClientConn>)
      returns (ghost order: seq<string>, ghost made: set<object>)
      requires Regs(v, members, cs)
      modifies sessions`Repr, sessions.m.Values`lastTouched, sessions.SessionRings(), sessions.SessionSlices()
      modifies cs`calls, cs`queue
      ensures Enumerates(order, v.m.Keys) && v.floor >= 0 && sessions.RingsOk()
      ensures sessions.Is(Publish(v, id, e, now, order, f))
      ensures CallsOf(cs) == if id in members then WithSent(old(CallsOf(cs)), members[id], Data(e))
              else old(CallsOf(cs))
      ensures Clients(members, cs)
      ensures sessions.Repr == old(sessions.Repr) + made && fresh(made) && unchanged(sessions`m)
    {
      order, made := sessions.Publish(id, e, now, f, v, members, cs);
    }

    ghost method Record(p: Push, v: RegVal, members: map<string, set<ClientConn>>, cs: set<ClientConn>)
      requires sessions.Is(v) && sessions.RingsOk() && Clients(members, cs)
      modifies `pushes
      ensures sessions.Is(v) && sessions.RingsOk() && Clients(members, cs)
      ensures pushes == old(pushes) + [p] && CallsOf(cs) == old(CallsOf(cs))
    {
      pushes := pushes + [p];
    }

    ghost method Notify(id: string, p: Push, v: IngestVal, members: map<string, set<ClientConn>>, cs: set<ClientConn>)
      requires Is(v) && Clients(members, cs)
      modifies `pushes
      ensures Is(NotifyPush(v, id, p)) && Clients(members, cs)
      ensures CallsOf(cs) == old(CallsOf(cs))
    {
      if id in sessions.m {
        Record(p, v.reg, members, cs);
      }
    }

    method HandleEvent(id: string, seqNo: int64, kind: EventKind, ts: int, raw: seq<byte>, now: nat, f: Scale,
                       ghost v: IngestVal, ghost members: map<string, set<ClientConn>>, ghost cs: set<ClientConn>)
      returns (ghost order: seq<string>, ghost made: set<object>)
      requires Is(v) && Clients(members, cs)
      modifies sessions`Repr, `pushes, sessions.m.Values`lastSeq, sessions.m.Values`lastTouched
      modifies sessions.SessionRings(), sessions.SessionSlices(), cs`calls, cs`queue
      ensures Enumerates(order, v.reg.m.Keys) && v.reg.floor >= 0
      ensures Is(IngestSpec.HandleEvent(v, SessionEvent(id, seqNo, kind, ts, raw), Env(now, order, f)))
      ensures CallsOf(cs) ==
        DataCalls(old(CallsOf(cs)), v.reg, id, seqNo, Entry(ToUint64(seqNo), EventEntry, ts, raw), members)
      ensures Clients(members, cs)
      ensures sessions.Repr == old(sessions.Repr) + made && fresh(made) && unchanged(sessions`m)
    {
      var advanced;
      advanced, order, made := Ingest(id, seqNo, EventEntry, ts, raw, now, f, v.reg, members, cs);
      NotifyEvent(SessionEvent(id, seqNo, kind, ts, raw), advanced, Env(now, order, f), v, members, cs);
    }

    /** A frame that was published may call for a push. */
    ghost method NotifyEvent(fr: DaemonFrame, advanced: bool, env: Env, v: IngestVal,
                             members: map<string, set<ClientConn>>, cs: set<ClientConn>)
      requires fr.SessionEvent? && v.reg.floor >= 0 && Enumerates(env.order, v.reg.m.Keys)
      requires Is(v.(reg := IngestSpec.Ingest(v.reg, fr.id, fr.seqNo, EventEntry, fr.ts, fr.raw, env)))
      requires advanced == Advances(v.reg, fr.id, fr.seqNo) && Clients(members, cs)
      modifies `pushes
      ensures Is(IngestSpec.HandleEvent(v, fr, env)) && Clients(members, cs)
      ensures CallsOf(cs) == old(CallsOf(cs))
    {
      if advanced && FiresPush(fr.kind) {
        Notify(fr.id, EventPush(fr.id, v.reg.m[fr.id].epoch, fr.seqNo, fr.kind),
               v.(reg := IngestSpec.Ingest(v.reg, fr.id, fr.seqNo, EventEntry, fr.ts, fr.raw, env)), members, cs);
      }
    }

    method HandlePty(id: string, seqNo: int64, ts: int, raw: seq<byte>, now: nat, f: Scale,
                     ghost v: IngestVal, ghost members: map<string, set<ClientConn>>, ghost cs: set<ClientConn>)
      returns (ghost order: seq<string>, ghost made: set<object>)
      requires Is(v) && Clients(members, cs)
      modifies sessions`Repr, sessions.m.Values`lastSeq, sessions.m.Values`lastTouched
      modifies sessions.SessionRings(), sessions.SessionSlices(), cs`calls, cs`queue
      ensures Enumerates(order, v.reg.m.Keys) && v.reg.floor >= 0
      ensures Is(v.(reg := IngestSpec.Ingest(v.reg, id, seqNo, PtyEntry, ts, raw, Env(now, order, f))))
      ensures CallsOf(cs) ==
        DataCalls(old(CallsOf(cs)), v.reg, id, seqNo, Entry(ToUint64(seqNo), PtyEntry, ts, raw), members)
      ensures Clients(members, cs)
      ensures sessions.Repr == old(sessions.Repr) + made && fresh(made) && unchanged(sessions`m)
    {
      var advanced;
      advanced, order, made := Ingest(id, seqNo, PtyEntry, ts, raw, now, f, v.reg, members, cs);
    }

    /** Broadcast a control frame to the clients of a known session, and to nobody else. */
    method Forward(id: string, fr: DaemonFrame, ghost v: RegVal, ghost members: map<string, set<ClientConn>>,
                   ghost cs: set<ClientConn>)
      requires Regs(v, members, cs)
      modifies cs`calls, cs`queue
      ensures Regs(v, members, cs)
      ensures CallsOf(cs) == ControlCalls(old(CallsOf(cs)), v, id, fr, members, control)
    {
      if id in sessions.m {
        sessions.HoldsAt(v, id);
        sessions.Tell(id, control(fr, sessions.m[id].machineID), v, members, cs);
      }
    }

    method SetAndAdvance(id: string, to: Status, seqNo: int64, now: nat, ghost v: RegVal,
                         ghost members: map<string, set<ClientConn>>, ghost cs: set<ClientConn>)
      requires Regs(v, members, cs)
      modifies sessions.m.Values`lastSeq, sessions.m.Values`lastTouched, sessions.m.Values`state
      ensures Regs(RaiseSeq(SetState(v, id, to, now), id, seqNo, now), members, cs)
      ensures CallsOf(cs) == old(CallsOf(cs))
    {
      sessions.SetStateHeld(id, to, now, v, members, cs);
      var _ := sessions.AdvanceSeqHeld(id, seqNo, now, SetState(v, id, to, now), members, cs);
    }

    ghost method NotifyState(id: string, to: Status, v: IngestVal, members: map<string, set<ClientConn>>,
                             cs: set<ClientConn>)
      requires Is(v) && Clients(members, cs)
      modifies `pushes
      ensures Clients(members, cs)
      ensures Is(if to.Idle? || to.Unresponsive? then NotifyPush(v, id, StatePush(id, to)) else v)
      ensures CallsOf(cs) == old(CallsOf(cs))
    {
      if to.Idle? || to.Unresponsive? {
        Notify(id, StatePush(id, to), v, members, cs);
      }
    }

    /** The state first, then the number, whether or not it advances; then the clients are told. */
    method HandleStateChange(fr: DaemonFrame, now: nat, ghost v: IngestVal, ghost members: map<string, set<ClientConn>>,
                             ghost cs: set<ClientConn>, ghost env: Env)
      requires Is(v) && Clients(members, cs) && fr.SessionStateChange? && env.now == now
      modifies `pushes, sessions.m.Values`lastSeq, sessions.m.Values`lastTouched, sessions.m.Values`state
      modifies cs`calls, cs`queue
      ensures Is(IngestSpec.HandleStateChange(v, fr, env)) && Clients(members, cs)
      ensures CallsOf(cs) == ControlCalls(old(CallsOf(cs)), v.reg, fr.id, fr, members, control)
    {
      ghost var reg := RaiseSeq(SetState(v.reg, fr.id, fr.to, now), fr.id, fr.seqNo, now);
      ChangeAndForward(fr, now, v, reg, members, cs);
      NotifyState(fr.id, fr.to, v.(reg := reg), members, cs);
    }

    method ChangeAndForward(fr: DaemonFrame, now: nat, ghost v: IngestVal, ghost reg: RegVal,
                            ghost members: map<string, set<ClientConn>>, ghost cs: set<ClientConn>)
      requires Is(v) && Clients(members, cs) && fr.SessionStateChange?
      requires reg == RaiseSeq(SetState(v.reg, fr.id, fr.to, now), fr.id, fr.seqNo, now)
      modifies sessions.m.Values`lastSeq, sessions.m.Values`lastTouched, sessions.m.Values`state
      modifies cs`calls, cs`queue
      ensures Is(v.(reg := reg)) && Clients(members, cs)
      ensures CallsOf(cs) == ControlCalls(old(CallsOf(cs)), v.reg, fr.id, fr, members, control)
    {
      SetAndAdvance(fr.id, fr.to, fr.seqNo, now, v.reg, members, cs);
      SameMachine(CallsOf(cs), v.reg, reg, fr.id, fr, members, control);
      Forward(fr.id, fr, reg, members, cs);
    }

    method AdvanceAndEnd(id: string, seqNo: int64, now: nat, ghost v: RegVal,
                         ghost members: map<string, set<ClientConn>>, ghost cs: set<ClientConn>)
      requires Regs(v, members, cs)
      modifies sessions.m.Values`lastSeq, sessions.m.Values`lastTouched, sessions.m.Values`state
      modifies sessions.m.Values`ended, sessions.m.Values`endedAt
      ensures Regs(MarkEnded(RaiseSeq(v, id, seqNo, now), id, now), members, cs)
      ensures CallsOf(cs) == old(CallsOf(cs))
    {
      var _ := sessions.AdvanceSeqHeld(id, seqNo, now, v, members, cs);
      sessions.MarkEndedHeld(id, now, RaiseSeq(v, id, seqNo, now), members, cs);
    }

    /** The session ends even when the number is stale, and its clients are told. */
    method HandleEnded(fr: DaemonFrame, now: nat, ghost v: IngestVal, ghost members: map<string, set<ClientConn>>,
                       ghost cs: set<ClientConn>, ghost env: Env)
      requires Is(v) && Clients(members, cs) && fr.SessionEnded? && env.now == now
      modifies `pushes, sessions.m.Values`lastSeq, sessions.m.Values`lastTouched, sessions.m.Values`state
      modifies sessions.m.Values`ended, sessions.m.Values`endedAt, cs`calls, cs`queue
      ensures Is(IngestSpec.HandleEnded(v, fr, env)) && Clients(members, cs)
      ensures CallsOf(cs) == ControlCalls(old(CallsOf(cs)), v.reg, fr.id, fr, members, control)
    {
      ghost var reg := MarkEnded(RaiseSeq(v.reg, fr.id, fr.seqNo, now), fr.id, now);
      EndAndForward(fr, now, v, reg, members, cs);
      Notify(fr.id, EndedPush(fr.id), v.(reg := reg), members, cs);
    }

    method EndAndForward(fr: DaemonFrame, now: nat, ghost v: IngestVal, ghost reg: RegVal,
                         ghost members: map<string, set<ClientConn>>, ghost cs: set<ClientConn>)
      requires Is(v) && Clients(members, cs) && fr.SessionEnded?
      requires reg == MarkEnded(RaiseSeq(v.reg, fr.id, fr.seqNo, now), fr.id, now)
      modifies sessions.m.Values`lastSeq, sessions.m.Values`lastTouched, sessions.m.Values`state
      modifies sessions.m.Values`ended, sessions.m.Values`endedAt, cs`calls, cs`queue
      ensures Is(v.(reg := reg)) && Clients(members, cs)
      ensures CallsOf(cs) == ControlCalls(old(CallsOf(cs)), v.reg, fr.id, fr, members, control)
    {
      AdvanceAndEnd(fr.id, fr.seqNo, now, v.reg, members, cs);
      SameMachine(CallsOf(cs), v.reg, reg, fr.id, fr, members, control);
      Forward(fr.id, fr, reg, members, cs);
    }

    /** A new session object starts with no clients; every other session keeps its object and clients. */
    method NewSession(id: string, machineID: string, now: nat, ghost v: RegVal,
                      ghost members: map<string, set<ClientConn>>, ghost cs: set<ClientConn>)
      returns (ghost made: set<object>)
      requires Regs(v, members, cs)
      modifies sessions`m, sessions`epochs, sessions`Repr
      ensures Regs(Register(v, id, machineID, now), members[id := {}], cs)
      ensures SessionAdded(old(sessions.m), id) && fresh(sessions.m[id])
      ensures CallsOf(cs) == old(CallsOf(cs))
      ensures sessions.Repr == old(sessions.Repr) + made && fresh(made)
    {
      var s := sessions.Register(id, machineID, now, v, members, cs);
      made := {s, s.ring, s.ring.entries};
    }

    method ResumeUnknown(id: string, last: int64, machineID: string, now: nat, ghost v: RegVal,
                         ghost members: map<string, set<ClientConn>>, ghost cs: set<ClientConn>)
      returns (ghost made: set<object>)
      requires Regs(v, members, cs)
      modifies sessions`m, sessions`epochs, sessions`Repr, sessions.m.Values`lastSeq, sessions.m.Values`lastTouched
      ensures Regs(RaiseSeq(Register(v, id, machineID, now), id, last, now), members[id := {}], cs)
      ensures SessionAdded(old(sessions.m), id) && fresh(sessions.m[id])
      ensures CallsOf(cs) == old(CallsOf(cs))
      ensures sessions.Repr == old(sessions.Repr) + made && fresh(made)
    {
      made := NewSession(id, machineID, now, v, members, cs);
      sessions.RestoreHeld(id, last, now, Register(v, id, machineID, now), members[id := {}], cs);
    }

    /** A known session keeps its object, ring and clients and the greater number; an unknown one is
        started, without clients. */
    method HandleResume(id: string, last: int64, machineID: string, now: nat, ghost v: RegVal,
                        ghost members: map<string, set<ClientConn>>, ghost cs: set<ClientConn>)
      returns (ghost made: set<object>)
      requires Regs(v, members, cs)
      modifies sessions`m, sessions`epochs, sessions`Repr
      modifies sessions.m.Values`lastSeq, sessions.m.Values`lastTouched, sessions.m.Values`state
      ensures Regs(Resume(v, id, machineID, last, now), if id in v.m then members else members[id := {}], cs)
      ensures if id in v.m then unchanged(sessions`m)
              else SessionAdded(old(sessions.m), id) && fresh(sessions.m[id])
      ensures CallsOf(cs) == old(CallsOf(cs))
      ensures sessions.Repr == old(sessions.Repr) + made && fresh(made)
    {
      if id in sessions.m {
        SetAndAdvance(id, Running, last, now, v, members, cs);
        made := {};
      } else {
        made := ResumeUnknown(id, last, machineID, now, v, members, cs);
      }
    }

    /** A listing of the sessions, where no map is walked. */
    lemma AnyOrder(v: RegVal) returns (order: seq<string>)
      requires sessions.Is(v)
      ensures v.floor >= 0 && Enumerates(order, v.m.Keys)
    {
      order := Listing(v.m.Keys);
    }

    /** What `v` becomes, the error, and every Send of the clients `cs`, when the map iteration went
        in `order`. */
    ghost predicate Outcome(v: IngestVal, conn: ConnId, fr: DaemonFrame, env: Env, err: Option<HandleError>,
                            calls: map<ClientConn, seq<Frame>>, members: map<string, set<ClientConn>>,
                            cs: set<ClientConn>)
      reads this, sessions, sessions.m.Values, sessions.SessionRings(), sessions.SessionSlices(), cs`calls
    {
      && v.reg.floor >= 0 && Enumerates(env.order, v.reg.m.Keys)
      && Is(IngestSpec.Dispatch(v, conn, fr, env).0) && err == IngestSpec.Dispatch(v, conn, fr, env).1
      && CallsOf(cs) == DispatchCalls(calls, v, conn, fr, env.order, members, control, paused)
    }

    method HandlePublished(conn: ConnId, fr: DaemonFrame, now: nat, f: Scale, ghost v: IngestVal,
                           ghost members: map<string, set<ClientConn>>, ghost cs: set<ClientConn>)
      returns (ghost order: seq<string>, ghost made: set<object>)
      requires Is(v) && Clients(members, cs) && (fr.SessionEvent? || fr.SessionPty?)
      modifies sessions`Repr, `pushes, sessions.m.Values`lastSeq, sessions.m.Values`lastTouched
      modifies sessions.SessionRings(), sessions.SessionSlices(), cs`calls, cs`queue
      ensures Outcome(v, conn, fr, Env(now, order, f), None, old(CallsOf(cs)), members, cs)
      ensures Clients(members, cs)
      ensures sessions.Repr == old(sessions.Repr) + made && fresh(made) && unchanged(sessions`m)
    {
      if fr.SessionEvent? {
        order, made := HandleEvent(fr.id, fr.seqNo, fr.kind, fr.ts, fr.raw, now, f, v, members, cs);
      } else {
        order, made := HandlePty(fr.id, fr.seqNo, fr.ts, fr.raw, now, f, v, members, cs);
      }
    }

    method HandleMarked(conn: ConnId, fr: DaemonFrame, now: nat, f: Scale, ghost v: IngestVal,
                        ghost members: map<string, set<ClientConn>>, ghost cs: set<ClientConn>)
      returns (ghost order: seq<string>)
      requires Is(v) && Clients(members, cs) && (fr.SessionStateChange? || fr.SessionEnded?)
      modifies `pushes, sessions.m.Values`lastSeq, sessions.m.Values`lastTouched, sessions.m.Values`state
      modifies sessions.m.Values`ended, sessions.m.Values`endedAt, cs`calls, cs`queue
      ensures Outcome(v, conn, fr, Env(now, order, f), None, old(CallsOf(cs)), members, cs)
      ensures Clients(members, cs)
    {
      order := AnyOrder(v.reg);
      MarkedDispatch(v, conn, fr, Env(now, order, f), old(CallsOf(cs)), members, control, paused);
      if fr.SessionStateChange? {
        HandleStateChange(fr, now, v, members, cs, Env(now, order, f));
      } else {
        HandleEnded(fr, now, v, members, cs, Env(now, order, f));
      }
    }

    method HandleSuspending(conn: ConnId, now: nat, f: Scale, ghost v: IngestVal,
                            ghost members: map<string, set<ClientConn>>, ghost cs: set<ClientConn>)
      returns (ghost order: seq<string>)
      requires Is(v) && Clients(members, cs) && conn in connState
      modifies sessions.m.Values`lastTouched, sessions.m.Values`state, cs`calls, cs`queue
      ensures Outcome(v, conn, MachineSuspending, Env(now, order, f), None, old(CallsOf(cs)), members, cs)
      ensures Clients(members, cs)
    {
      ghost var w := SuspendingDispatch(v, conn, now);
      order := Suspend(conn, now, v, w, members, cs);
      assert IngestSpec.Dispatch(v, conn, MachineSuspending, Env(now, order, f)) == (w, None);
    }

    method Suspend(conn: ConnId, now: nat, ghost v: IngestVal, ghost w: IngestVal,
                   ghost members: map<string, set<ClientConn>>, ghost cs: set<ClientConn>)
      returns (ghost order: seq<string>)
      requires Is(v) && Clients(members, cs) && conn in connState
      requires w == v.(reg := PauseAllForMachine(v.reg, StateFor(v, conn).machineID, now))
      modifies sessions.m.Values`lastTouched, sessions.m.Values`state, cs`calls, cs`queue
      ensures v.reg.floor >= 0 && Enumerates(order, v.reg.m.Keys) && Is(w) && Clients(members, cs)
      ensures CallsOf(cs) ==
              DispatchCalls(old(CallsOf(cs)), v, conn, MachineSuspending, order, members, control, paused)
    {
      order := PauseMachine(connState[conn].machineID, now, v, members, cs);
      SuspendingCalls(old(CallsOf(cs)), v, conn, order, members, control, paused);
    }

    method PauseMachine(machineID: string, now: nat, ghost v: IngestVal, ghost members: map<string, set<ClientConn>>,
                        ghost cs: set<ClientConn>)
      returns (ghost order: seq<string>)
      requires Is(v) && Clients(members, cs)
      modifies sessions.m.Values`lastTouched, sessions.m.Values`state, cs`calls, cs`queue
      ensures Enumerates(order, v.reg.m.Keys) && v.reg.floor >= 0
      ensures Is(v.(reg := PauseAllForMachine(v.reg, machineID, now))) && Clients(members, cs)
      ensures CallsOf(cs) == PauseCalls(old(CallsOf(cs)), v.reg, order, members, machineID, paused)
    {
      order := sessions.PauseAllForMachine(machineID, now, paused, v.reg, members, cs);
    }

    method HandleStarted(conn: ConnId, id: string, machineID: string, now: nat, f: Scale, ghost v: IngestVal,
                         ghost members: map<string, set<ClientConn>>, ghost cs: set<ClientConn>)
      returns (ghost order: seq<string>, ghost made: set<object>)
      requires Is(v) && Clients(members, cs)
      modifies sessions`m, sessions`epochs, sessions`Repr
      ensures Outcome(v, conn, SessionStarted(id, machineID), Env(now, order, f), None, old(CallsOf(cs)), members, cs)
      ensures Clients(members[id := {}], cs)
      ensures SessionAdded(old(sessions.m), id) && fresh(sessions.m[id])
      ensures sessions.Repr == old(sessions.Repr) + made && fresh(made)
    {
      order := AnyOrder(v.reg);
      made := StartHeld(id, machineID, now, v, members, cs);
    }

    method StartHeld(id: string, machineID: string, now: nat, ghost v: IngestVal,
                     ghost members: map<string, set<ClientConn>>, ghost cs: set<ClientConn>)
      returns (ghost made: set<object>)
      requires Is(v) && Clients(members, cs)
      modifies sessions`m, sessions`epochs, sessions`Repr
      ensures Is(v.(reg := Register(v.reg, id, machineID, now))) && CallsOf(cs) == old(CallsOf(cs))
      ensures Clients(members[id := {}], cs)
      ensures SessionAdded(old(sessions.m), id) && fresh(sessions.m[id])
      ensures sessions.Repr == old(sessions.Repr) + made && fresh(made)
    {
      made := NewSession(id, machineID, now, v.reg, members, cs);
    }

    method HandleResumed(conn: ConnId, fr: DaemonFrame, now: nat, f: Scale, ghost v: IngestVal,
                         ghost members: map<string, set<ClientConn>>, ghost cs: set<ClientConn>)
      returns (ghost order: seq<string>, ghost made: set<object>)
      requires Is(v) && Clients(members, cs) && conn in connState && fr.SessionResume?
      modifies sessions`m, sessions`epochs, sessions`Repr
      modifies sessions.m.Values`lastSeq, sessions.m.Values`lastTouched, sessions.m.Values`state
      ensures Outcome(v, conn, fr, Env(now, order, f), None, old(CallsOf(cs)), members, cs)
      ensures Clients(MembersAfter(v.reg, fr, members), cs)
      ensures if Starts(v.reg, fr) then SessionAdded(old(sessions.m), fr.id) && fresh(sessions.m[fr.id])
              else unchanged(sessions`m)
      ensures sessions.Repr == old(sessions.Repr) + made && fresh(made)
    {
      order := AnyOrder(v.reg);
      made := ResumeInto(conn, fr, v, Env(now, order, f), now, members, cs);
    }

    method ResumeInto(conn: ConnId, fr: DaemonFrame, ghost v: IngestVal, ghost env: Env, now: nat,
                      ghost members: map<string, set<ClientConn>>, ghost cs: set<ClientConn>)
      returns (ghost made: set<object>)
      requires Is(v) && Clients(members, cs) && conn in connState && fr.SessionResume?
      requires env.now == now && v.reg.floor >= 0 && Enumerates(env.order, v.reg.m.Keys)
      modifies sessions`m, sessions`epochs, sessions`Repr
      modifies sessions.m.Values`lastSeq, sessions.m.Values`lastTouched, sessions.m.Values`state
      ensures IngestSpec.Dispatch(v, conn, fr, env).1 == None
      ensures Is(IngestSpec.Dispatch(v, conn, fr, env).0) && CallsOf(cs) == old(CallsOf(cs))
      ensures Clients(MembersAfter(v.reg, fr, members), cs)
      ensures if Starts(v.reg, fr) then SessionAdded(old(sessions.m), fr.id) && fresh(sessions.m[fr.id])
              else unchanged(sessions`m)
      ensures sessions.Repr == old(sessions.Repr) + made && fresh(made)
    {
      ghost var w := ResumedDispatch(v, conn, fr.id, fr.lastSeqEmitted, now);
      made := ResumeHeld(conn, fr, now, v, w, members, cs);
      assert IngestSpec.Dispatch(v, conn, fr, env) == (w, None);
    }

    method ResumeHeld(conn: ConnId, fr: DaemonFrame, now: nat, ghost v: IngestVal, ghost w: IngestVal,
                      ghost members: map<string, set<ClientConn>>, ghost cs: set<ClientConn>)
      returns (ghost made: set<object>)
      requires Is(v) && Clients(members, cs) && conn in connState && fr.SessionResume?
      requires w == v.(reg := Resume(v.reg, fr.id, StateFor(v, conn).machineID, fr.lastSeqEmitted, now))
      modifies sessions`m, sessions`epochs, sessions`Repr
      modifies sessions.m.Values`lastSeq, sessions.m.Values`lastTouched, sessions.m.Values`state
      ensures Is(w) && CallsOf(cs) == old(CallsOf(cs))
      ensures Clients(MembersAfter(v.reg, fr, members), cs)
      ensures if Starts(v.reg, fr) then SessionAdded(old(sessions.m), fr.id) && fresh(sessions.m[fr.id])
              else unchanged(sessions`m)
      ensures sessions.Repr == old(sessions.Repr) + made && fresh(made)
    {
      made := HandleResume(fr.id, fr.lastSeqEmitted, connState[conn].machineID, now, v.reg, members, cs);
    }

    method HandleMachineRegister(conn: ConnId, machineID: string, now: nat, f: Scale, ghost v: IngestVal,
                                 ghost members: map<string, set<ClientConn>>, ghost cs: set<ClientConn>)
      returns (ghost order: seq<string>)
      requires Is(v) && Clients(members, cs)
      modifies `connState
      ensures Outcome(v, conn, MachineRegister(machineID), Env(now, order, f), None, old(CallsOf(cs)), members, cs)
      ensures Clients(members, cs)
    {
      order := AnyOrder(v.reg);
      RegisterConn(conn, machineID, v, members, cs);
    }

    method RegisterConn(conn: ConnId, machineID: string, ghost v: IngestVal,
                        ghost members: map<string, set<ClientConn>>, ghost cs: set<ClientConn>)
      requires Is(v) && Clients(members, cs)
      modifies `connState
      ensures Is(v.(conns := v.conns[conn := ConnState(true, machineID)]))
      ensures Clients(members, cs) && CallsOf(cs) == old(CallsOf(cs))
    {
      connState := connState[conn := ConnState(true, machineID)];
      assert sessions.RingsOk() == old(sessions.RingsOk());
    }

    /** A frame that starts no session. */
    method DispatchKnown(conn: ConnId, fr: DaemonFrame, now: nat, f: Scale, ghost v: IngestVal,
                         ghost members: map<string, set<ClientConn>>, ghost cs: set<ClientConn>)
      returns (err: Option<HandleError>, ghost order: seq<string>, ghost made: set<object>)
      requires Is(v) && Clients(members, cs) && conn in connState && !fr.SessionStarted? && !fr.SessionResume?
      modifies sessions`Repr, `pushes, `connState
      modifies sessions.m.Values`lastSeq, sessions.m.Values`lastTouched, sessions.m.Values`state
      modifies sessions.m.Values`ended, sessions.m.Values`endedAt
      modifies sessions.SessionRings(), sessions.SessionSlices(), cs`calls, cs`queue
      ensures Outcome(v, conn, fr, Env(now, order, f), err, old(CallsOf(cs)), members, cs)
      ensures Clients(members, cs)
      ensures sessions.Repr == old(sessions.Repr) + made && fresh(made) && unchanged(sessions`m)
    {
      err, made := None, {};
      if fr.SessionEvent? || fr.SessionPty? {
        order, made := HandlePublished(conn, fr, now, f, v, members, cs);
      } else if fr.SessionStateChange? || fr.SessionEnded? {
        order := HandleMarked(conn, fr, now, f, v, members, cs);
      } else if fr.MachineRegister? {
        order := HandleMachineRegister(conn, fr.machineID, now, f, v, members, cs);
      } else if fr.MachineSuspending? {
        order := HandleSuspending(conn, now, f, v, members, cs);
      } else {
        order := AnyOrder(v.reg);
        err := if fr.NotAnObject? || fr.BadBody? then Some(MalformedFrame) else None;
      }
    }

    /** A frame that may start one. */
    method DispatchStart(conn: ConnId, fr: DaemonFrame, now: nat, f: Scale, ghost v: IngestVal,
                         ghost members: map<string, set<ClientConn>>, ghost cs: set<ClientConn>)
      returns (ghost order: seq<string>, ghost made: set<object>)
      requires Is(v) && Clients(members, cs) && conn in connState && (fr.SessionStarted? || fr.SessionResume?)
      modifies sessions`m, sessions`epochs, sessions`Repr
      modifies sessions.m.Values`lastSeq, sessions.m.Values`lastTouched, sessions.m.Values`state
      ensures Outcome(v, conn, fr, Env(now, order, f), None, old(CallsOf(cs)), members, cs)
      ensures Clients(MembersAfter(v.reg, fr, members), cs)
      ensures if Starts(v.reg, fr) then SessionAdded(old(sessions.m), fr.id) && fresh(sessions.m[fr.id])
              else unchanged(sessions`m)
      ensures sessions.Repr == old(sessions.Repr) + made && fresh(made)
    {
      if fr.SessionStarted? {
        order, made := HandleStarted(conn, fr.id, fr.machineID, now, f, v, members, cs);
      } else {
        order, made := HandleResumed(conn, fr, now, f, v, members, cs);
      }
    }

    method Dispatch(conn: ConnId, fr: DaemonFrame, now: nat, f: Scale, ghost v: IngestVal,
                    ghost members: map<string, set<ClientConn>>, ghost cs: set<ClientConn>)
      returns (err: Option<HandleError>, ghost order: seq<string>, ghost made: set<object>)
      requires Is(v) && Clients(members, cs) && conn in connState
      modifies `pushes, `connState, sessions`m, sessions`epochs, sessions`Repr
      modifies sessions.m.Values`lastSeq, sessions.m.Values`lastTouched, sessions.m.Values`state
      modifies sessions.m.Values`ended, sessions.m.Values`endedAt
      modifies sessions.SessionRings(), sessions.SessionSlices(), cs`calls, cs`queue
      ensures Outcome(v, conn, fr, Env(now, order, f), err, old(CallsOf(cs)), members, cs)
      ensures Clients(MembersAfter(v.reg, fr, members), cs)
      ensures if Starts(v.reg, fr) then SessionAdded(old(sessions.m), fr.id) && fresh(sessions.m[fr.id])
              else unchanged(sessions`m)
      ensures sessions.Repr == old(sessions.Repr) + made && fresh(made)
    {
      err := None;
      if fr.SessionStarted? || fr.SessionResume? {
        order, made := DispatchStart(conn, fr, now, f, v, members, cs);
      } else {
        err, order, made := DispatchKnown(conn, fr, now, f, v, members, cs);
      }
    }

    /** A connection not seen before gets an entry. */
    method StateForConn(conn: ConnId, ghost v: IngestVal)
      requires Is(v)
      modifies `connState
      ensures conn in connState && Is(v.(conns := v.conns[conn := StateFor(v, conn)]))
    {
      if conn !in connState {
        connState := connState[conn := ConnState(false, "")];
      }
      assert connState == v.conns[conn := StateFor(v, conn)];
      assert sessions.RingsOk() == old(sessions.RingsOk());
    }

    method StateForConnClients(conn: ConnId, ghost v: IngestVal, ghost members: map<string, set<ClientConn>>,
                               ghost cs: set<ClientConn>)
      requires Is(v) && Clients(members, cs)
      modifies `connState
      ensures conn in connState && Is(v.(conns := v.conns[conn := StateFor(v, conn)])) && Clients(members, cs)
      ensures CallsOf(cs) == old(CallsOf(cs))
    {
      StateForConn(conn, v);
      assert Clients(members, cs) == old(Clients(members, cs));
    }

    /** One frame: refused before registration, dispatched after it. States what the ingestor and its
        registry become, the error, and every frame every client is sent. */
    method Handle(conn: ConnId, fr: DaemonFrame, now: nat, f: Scale, ghost v: IngestVal,
                  ghost members: map<string, set<ClientConn>>, ghost cs: set<ClientConn>)
      returns (err: Option<HandleError>, ghost order: seq<string>)
      requires Is(v) && Clients(members, cs)
      modifies `pushes, `connState, sessions`m, sessions`epochs, sessions`Repr
      modifies sessions.m.Values`lastSeq, sessions.m.Values`lastTouched, sessions.m.Values`state
      modifies sessions.m.Values`ended, sessions.m.Values`endedAt
      modifies sessions.SessionRings(), sessions.SessionSlices(), cs`calls, cs`queue
      ensures v.reg.floor >= 0 && Enumerates(order, v.reg.m.Keys)
      ensures Is(IngestSpec.Handle(v, conn, fr, Env(now, order, f)).0)
      ensures err == IngestSpec.Handle(v, conn, fr, Env(now, order, f)).1
      ensures CallsOf(cs) == HandleCalls(old(CallsOf(cs)), v, conn, fr, order, members, control, paused)
      ensures Clients(if StateFor(v, conn).registered then MembersAfter(v.reg, fr, members) else members, cs)
      ensures if StateFor(v, conn).registered && Starts(v.reg, fr)
              then SessionAdded(old(sessions.m), fr.id) && fresh(sessions.m[fr.id])
              else unchanged(sessions`m)
      ensures fresh(sessions.Repr - old(sessions.Repr))
    {
      if fr.NotAnObject? {
        order := AnyOrder(v.reg);
        return Some(MalformedFrame), order;
      }
      StateForConnClients(conn, v, members, cs);
      ghost var v1 := v.(conns := v.conns[conn := StateFor(v, conn)]);
      ghost var made;
      err, order, made := PassGate(conn, fr, now, f, v1, members, cs);
      SameHandle(old(CallsOf(cs)), v, v1, conn, fr, Env(now, order, f), members, control, paused);
    }

    /** The first-frame gate, for a connection that has an entry. */
    method PassGate(conn: ConnId, fr: DaemonFrame, now: nat, f: Scale, ghost v: IngestVal,
                    ghost members: map<string, set<ClientConn>>, ghost cs: set<ClientConn>)
      returns (err: Option<HandleError>, ghost order: seq<string>, ghost made: set<object>)
      requires Is(v) && Clients(members, cs) && conn in connState
      modifies `pushes, `connState, sessions`m, sessions`epochs, sessions`Repr
      modifies sessions.m.Values`lastSeq, sessions.m.Values`lastTouched, sessions.m.Values`state
      modifies sessions.m.Values`ended, sessions.m.Values`endedAt
      modifies sessions.SessionRings(), sessions.SessionSlices(), cs`calls, cs`queue
      ensures v.reg.floor >= 0 && Enumerates(order, v.reg.m.Keys)
      ensures StateFor(v, conn).registered || IsRegister(fr) ==>
                Outcome(v, conn, fr, Env(now, order, f), err, old(CallsOf(cs)), members, cs)
      ensures !StateFor(v, conn).registered && !IsRegister(fr) ==>
                Is(v) && err == Some(FirstFrameNotRegister) && CallsOf(cs) == old(CallsOf(cs))
      ensures Clients(if StateFor(v, conn).registered then MembersAfter(v.reg, fr, members) else members, cs)
      ensures if StateFor(v, conn).registered && Starts(v.reg, fr)
              then SessionAdded(old(sessions.m), fr.id) && fresh(sessions.m[fr.id])
              else unchanged(sessions`m)
      ensures sessions.Repr == old(sessions.Repr) + made && fresh(made)
    {
      if !connState[conn].registered && !IsRegister(fr) {
        order := AnyOrder(v.reg);
        return Some(FirstFrameNotRegister), order, {};
      }
      err, order, made := Dispatch(conn, fr, now, f, v, members, cs);
    }

    /** The connection is gone: the machine it registered is paused, and it is forgotten. */
    method ConnClosed(conn: ConnId, now: nat, ghost v: IngestVal, ghost members: map<string, set<ClientConn>>,
                      ghost cs: set<ClientConn>)
      returns (ghost order: seq<string>)
      requires Is(v) && Clients(members, cs)
      modifies `connState, sessions.m.Values`lastTouched, sessions.m.Values`state, cs`calls, cs`queue
      ensures Enumerates(order, v.reg.m.Keys)
      ensures Is(CloseConn(v, conn, now)) && Clients(members, cs)
      ensures CallsOf(cs) ==
        if StateFor(v, conn).registered
        then PauseCalls(old(CallsOf(cs)), v.reg, order, members, StateFor(v, conn).machineID, paused)
        else old(CallsOf(cs))
    {
      if conn in connState && connState[conn].registered {
        order := PauseMachine(connState[conn].machineID, now, v, members, cs);
        Forget(conn, v.(reg := PauseAllForMachine(v.reg, StateFor(v, conn).machineID, now)), members, cs);
      } else {
        order := AnyOrder(v.reg);
        Forget(conn, v, members, cs);
      }
    }

    method Forget(conn: ConnId, ghost v: IngestVal, ghost members: map<string, set<ClientConn>>,
                  ghost cs: set<ClientConn>)
      requires Is(v) && Clients(members, cs)
      modifies `connState
      ensures Is(ForgetConn(v, conn)) && Clients(members, cs) && CallsOf(cs) == old(CallsOf(cs))
    {
      connState := connState - {conn};
      assert sessions.RingsOk() == old(sessions.RingsOk());
    }
  }

  // ---------------------------------------------------------------------------------------------
  // What the clients are sent
  // ---------------------------------------------------------------------------------------------

  /** The frame makes a new session object. */
  ghost predicate Starts(v: RegVal, fr: DaemonFrame) {
    fr.SessionStarted? || (fr.SessionResume? && fr.id !in v.m)
  }

  /** The clients of every session after the frame: a new session object has none. */
  ghost function MembersAfter(v: RegVal, fr: DaemonFrame, members: map<string, set<ClientConn>>)
    : map<string, set<ClientConn>>
  {
    if Starts(v, fr) then members[fr.id := {}] else members
  }

  /** An accepted entry goes to each client of its session, a stale one to nobody. */
  ghost function DataCalls(calls: map<ClientConn, seq<Frame>>, v: RegVal, id: string, n: int, e: Entry,
                           members: map<string, set<ClientConn>>): map<ClientConn, seq<Frame>>
  {
    if Advances(v, id, n) && id in members then WithSent(calls, members[id], Data(e)) else calls
  }

  /** A control frame goes to each client of a known session, stale or not. */
  ghost function ControlCalls(calls: map<ClientConn, seq<Frame>>, v: RegVal, id: string, fr: DaemonFrame,
                              members: map<string, set<ClientConn>>, control: (DaemonFrame, string) -> seq<byte>)
    : map<ClientConn, seq<Frame>>
  {
    if id in v.m && id in members then WithSent(calls, members[id], Control(control(fr, v.m[id].machineID))) else calls
  }

  lemma SameMachine(calls: map<ClientConn, seq<Frame>>, v: RegVal, w: RegVal, id: string, fr: DaemonFrame,
                    members: map<string, set<ClientConn>>, control: (DaemonFrame, string) -> seq<byte>)
    requires w.m.Keys == v.m.Keys && (id in v.m ==> w.m[id].machineID == v.m[id].machineID)
    ensures ControlCalls(calls, w, id, fr, members, control) == ControlCalls(calls, v, id, fr, members, control)
  {
  }

  lemma SuspendingDispatch(v: IngestVal, conn: ConnId, now: nat) returns (w: IngestVal)
    ensures w == v.(reg := PauseAllForMachine(v.reg, StateFor(v, conn).machineID, now))
    ensures forall env: Env :: env.now == now && v.reg.floor >= 0 && Enumerates(env.order, v.reg.m.Keys) ==>
              IngestSpec.Dispatch(v, conn, MachineSuspending, env) == (w, None)
  {
    w := v.(reg := PauseAllForMachine(v.reg, StateFor(v, conn).machineID, now));
  }

  lemma ResumedDispatch(v: IngestVal, conn: ConnId, id: string, last: int64, now: nat) returns (w: IngestVal)
    ensures w == v.(reg := Resume(v.reg, id, StateFor(v, conn).machineID, last, now))
    ensures forall env: Env :: env.now == now && v.reg.floor >= 0 && Enumerates(env.order, v.reg.m.Keys) ==>
              IngestSpec.Dispatch(v, conn, SessionResume(id, last), env) == (w, None)
  {
    w := v.(reg := Resume(v.reg, id, StateFor(v, conn).machineID, last, now));
  }

  ghost function DispatchCalls(calls: map<ClientConn, seq<Frame>>, v: IngestVal, conn: ConnId, fr: DaemonFrame,
                               order: seq<string>, members: map<string, set<ClientConn>>,
                               control: (DaemonFrame, string) -> seq<byte>, paused: Status -> seq<byte>)
    : map<ClientConn, seq<Frame>>
  {
    match fr
    case SessionEvent(id, n, _, ts, raw) =>
      DataCalls(calls, v.reg, id, n, Entry(ToUint64(n), EventEntry, ts, raw), members)
    case SessionPty(id, n, ts, raw) => DataCalls(calls, v.reg, id, n, Entry(ToUint64(n), PtyEntry, ts, raw), members)
    case SessionStateChange(id, _, _) => ControlCalls(calls, v.reg, id, fr, members, control)
    case SessionEnded(id, _) => ControlCalls(calls, v.reg, id, fr, members, control)
    case MachineSuspending => PauseCalls(calls, v.reg, order, members, StateFor(v, conn).machineID, paused)
    case _ => calls
  }

  lemma MarkedDispatch(v: IngestVal, conn: ConnId, fr: DaemonFrame, env: Env, calls: map<ClientConn, seq<Frame>>,
                       members: map<string, set<ClientConn>>, control: (DaemonFrame, string) -> seq<byte>,
                       paused: Status -> seq<byte>)
    requires v.reg.floor >= 0 && Enumerates(env.order, v.reg.m.Keys) && (fr.SessionStateChange? || fr.SessionEnded?)
    ensures IngestSpec.Dispatch(v, conn, fr, env) ==
            (if fr.SessionStateChange? then IngestSpec.HandleStateChange(v, fr, env)
             else IngestSpec.HandleEnded(v, fr, env), None)
    ensures DispatchCalls(calls, v, conn, fr, env.order, members, control, paused) ==
            ControlCalls(calls, v.reg, fr.id, fr, members, control)
  {
  }

  lemma SuspendingCalls(calls: map<ClientConn, seq<Frame>>, v: IngestVal, conn: ConnId, order: seq<string>,
                        members: map<string, set<ClientConn>>, control: (DaemonFrame, string) -> seq<byte>,
                        paused: Status -> seq<byte>)
    ensures DispatchCalls(calls, v, conn, MachineSuspending, order, members, control, paused) ==
            PauseCalls(calls, v.reg, order, members, StateFor(v, conn).machineID, paused)
  {
  }

  ghost function HandleCalls(calls: map<ClientConn, seq<Frame>>, v: IngestVal, conn: ConnId, fr: DaemonFrame,
                             order: seq<string>, members: map<string, set<ClientConn>>,
                             control: (DaemonFrame, string) -> seq<byte>, paused: Status -> seq<byte>)
    : map<ClientConn, seq<Frame>>
  {
    if !StateFor(v, conn).registered && !IsRegister(fr) then calls
    else DispatchCalls(calls, v, conn, fr, order, members, control, paused)
  }

  /** Giving a connection its entry changes nothing about what its frame does. */
  lemma SameHandle(calls: map<ClientConn, seq<Frame>>, v: IngestVal, v1: IngestVal, conn: ConnId, fr: DaemonFrame,
                   env: Env,
                   members: map<string, set<ClientConn>>, control: (DaemonFrame, string) -> seq<byte>,
                   paused: Status -> seq<byte>)
    requires v.reg.floor >= 0 && Enumerates(env.order, v.reg.m.Keys) && !fr.NotAnObject?
    requires v1 == v.(conns := v.conns[conn := StateFor(v, conn)])
    ensures IngestSpec.Handle(v, conn, fr, env) ==
            if StateFor(v1, conn).registered || IsRegister(fr) then IngestSpec.Dispatch(v1, conn, fr, env)
            else (v1, Some(FirstFrameNotRegister))
    ensures HandleCalls(calls, v, conn, fr, env.order, members, control, paused) ==
            if StateFor(v1, conn).registered || IsRegister(fr)
            then DispatchCalls(calls, v1, conn, fr, env.order, members, control, paused)
            else calls
  {
    assert StateFor(v1, conn) == StateFor(v, conn);
  }
}
