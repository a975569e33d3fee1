/**
 What every frame of a daemon does, spelled out on the registry's fields: who is changed, in what,
 who is not, what is pushed and which error is returned.
 */
module IngestEffects {
  import opened Base
  import opened Ring
  import opened Balance
  import opened BalanceProps
  import opened RegistrySpec
  import opened IngestSpec
  import RegistryRuns

  /** The map is listed in some order. */
  ghost predicate Ready(v: IngestVal, env: Env) {
    v.reg.floor >= 0 && Enumerates(env.order, v.reg.m.Keys)
  }

  /** The connection has registered a machine. */
  ghost predicate Registered(v: IngestVal, conn: ConnId) {
    conn in v.conns && v.conns[conn].registered
  }

  function Greater(a: int, b: int): int {
    if a > b then a else b
  }

  /** Only session `id` may differ, and nothing else of the registry does. */
  ghost predicate OnlyChanges(v: RegVal, w: RegVal, id: string) {
    && w == v.(m := w.m) && w.m.Keys == v.m.Keys
    && forall k :: k in v.m && k != id ==> w.m[k] == v.m[k]
  }

  // ---------------------------------------------------------------------------------------------
  // The dispatch
  // ---------------------------------------------------------------------------------------------

  lemma RegisteredHandle(v: IngestVal, conn: ConnId, fr: DaemonFrame, env: Env)
    requires Ready(v, env) && Registered(v, conn)
    ensures Handle(v, conn, fr, env) ==
            if fr.NotAnObject? then (v, Some(MalformedFrame)) else Dispatch(v, conn, fr, env)
  {
    assert v.conns[conn := v.conns[conn]] == v.conns;
  }

  /** Exactly which error a frame gets: one that is no object or does not decode, and before its
      registration anything but a machine_register. */
  lemma ErrorExactly(v: IngestVal, conn: ConnId, fr: DaemonFrame, env: Env)
    requires Ready(v, env)
    ensures Handle(v, conn, fr, env).1 ==
            if fr.NotAnObject? then Some(MalformedFrame)
            else if !Registered(v, conn) && !fr.MachineRegister? && fr != BadBody(true) then Some(FirstFrameNotRegister)
            else if fr.BadBody? then Some(MalformedFrame)
            else None
  {
  }

  /** A machine_register binds the connection to its machine and touches no session. Frames that are
      malformed, unknown or an answer to a spawn change nothing. */
  lemma OtherFrameEffect(v: IngestVal, conn: ConnId, fr: DaemonFrame, env: Env)
    requires Ready(v, env) && (Registered(v, conn) || fr.MachineRegister?)
    requires fr.MachineRegister? || fr.NotAnObject? || fr.BadBody? || fr.UnknownType? || fr.SpawnResponse?
    ensures var w := Handle(v, conn, fr, env).0;
            && w.reg == v.reg && w.pushes == v.pushes
            && w.conns == if fr.MachineRegister? then v.conns[conn := ConnState(true, fr.machineID)] else v.conns
  {
    if Registered(v, conn) {
      RegisteredHandle(v, conn, fr, env);
    } else {
      assert v.conns[conn := StateFor(v, conn)][conn := ConnState(true, fr.machineID)] ==
             v.conns[conn := ConnState(true, fr.machineID)];
    }
  }

  // ---------------------------------------------------------------------------------------------
  // Frames that make a session
  // ---------------------------------------------------------------------------------------------

  /** A session just registered: running, with no number, an empty ring, and a tenth of the cap or the floor. */
  ghost predicate FreshSession(s: SessionVal, v: RegVal, machineID: string, now: nat) {
    && s.machineID == machineID && s.state == Running && s.lastSeq == 0 && !s.ended && s.touched == now
    && s.ring.contents == [] && s.ring.history == [] && s.ring.earliest == 0 && s.ring.latest == 0
    && s.ring.maxBytes == Greater(v.cap / 10, v.floor)
    && forall k :: k in v.m ==> v.m[k].epoch != s.epoch
  }

  /** Session `id` is new, or made anew; all others stay. */
  ghost predicate Starts(v: RegVal, w: RegVal, id: string) {
    && w.cap == v.cap && w.floor == v.floor && w.epochs == v.epochs + 1
    && w.m.Keys == v.m.Keys + {id}
    && forall k :: k in v.m && k != id ==> w.m[k] == v.m[k]
  }

  lemma StartedEffect(v: IngestVal, conn: ConnId, id: string, machineID: string, env: Env)
    requires Ready(v, env) && Registered(v, conn) && SeqInv(v.reg)
    ensures var w := Handle(v, conn, SessionStarted(id, machineID), env).0;
            && w == v.(reg := w.reg) && Starts(v.reg, w.reg, id) && FreshSession(w.reg.m[id], v.reg, machineID, env.now)
  {
    RegisteredHandle(v, conn, SessionStarted(id, machineID), env);
  }

  lemma RaiseEffect(v: RegVal, id: string, n: int, now: nat)
    requires id in v.m
    ensures var w := RaiseSeq(v, id, n, now);
            && OnlyChanges(v, w, id)
            && w.m[id] == v.m[id].(lastSeq := Greater(v.m[id].lastSeq, n),
                 touched := if n > v.m[id].lastSeq then now else v.m[id].touched)
  {
  }

  lemma ResumeKnown(v: RegVal, id: string, machineID: string, last: int64, now: nat)
    requires id in v.m
    ensures var w := Resume(v, id, machineID, last, now);
            && OnlyChanges(v, w, id)
            && w.m[id] == v.m[id].(state := Running, touched := now, lastSeq := Greater(v.m[id].lastSeq, last))
  {
    RaiseEffect(SetState(v, id, Running, now), id, last, now);
  }

  lemma ResumeUnknown(v: RegVal, id: string, machineID: string, last: int64, now: nat)
    requires id !in v.m && forall k :: k in v.m ==> v.m[k].epoch < v.epochs
    ensures var w := Resume(v, id, machineID, last, now);
            && Starts(v, w, id) && w.m[id].lastSeq == Greater(0, last)
            && FreshSession(w.m[id].(lastSeq := 0), v, machineID, now)
  {
    RaiseEffect(Register(v, id, machineID, now), id, last, now);
  }

  /**
   A resume: a known session runs again, with its clients' history untouched and the greater number;
   an unknown one starts under the connection's machine, with the daemon's number if it is positive.
   */
  lemma ResumeEffect(v: IngestVal, conn: ConnId, id: string, last: int64, env: Env)
    requires Ready(v, env) && Registered(v, conn) && SeqInv(v.reg)
    ensures var w := Handle(v, conn, SessionResume(id, last), env).0;
            && w == v.(reg := w.reg) && id in w.reg.m && w.reg.m[id].state == Running
            && if id in v.reg.m then
                 && OnlyChanges(v.reg, w.reg, id)
                 && w.reg.m[id] == v.reg.m[id].(state := Running, touched := env.now,
                      lastSeq := Greater(v.reg.m[id].lastSeq, last))
               else
                 && Starts(v.reg, w.reg, id) && w.reg.m[id].lastSeq == Greater(0, last)
                 && FreshSession(w.reg.m[id].(lastSeq := 0), v.reg, v.conns[conn].machineID, env.now)
  {
    RegisteredHandle(v, conn, SessionResume(id, last), env);
    if id in v.reg.m {
      ResumeKnown(v.reg, id, v.conns[conn].machineID, last, env.now);
    } else {
      ResumeUnknown(v.reg, id, v.conns[conn].machineID, last, env.now);
    }
  }

  // ---------------------------------------------------------------------------------------------
  // Frames that mark a session
  // ---------------------------------------------------------------------------------------------

  /** The state is set and the number raised, whether or not the number is ahead; going idle or
      unresponsive is pushed. For an unknown session nothing happens. */
  lemma StateChangeEffect(v: IngestVal, conn: ConnId, id: string, n: int64, to: Status, env: Env)
    requires Ready(v, env) && Registered(v, conn)
    ensures var w := Handle(v, conn, SessionStateChange(id, n, to), env).0;
            if id !in v.reg.m then w == v
            else
              && w.conns == v.conns && OnlyChanges(v.reg, w.reg, id)
              && w.reg.m[id] ==
                   v.reg.m[id].(state := to, touched := env.now, lastSeq := Greater(v.reg.m[id].lastSeq, n))
              && w.pushes == v.pushes + if to == Idle || to == Unresponsive then [StatePush(id, to)] else []
  {
    RegisteredHandle(v, conn, SessionStateChange(id, n, to), env);
    if id in v.reg.m { RaiseEffect(SetState(v.reg, id, to, env.now), id, n, env.now); }
    assert v.pushes + [] == v.pushes;
  }

  /** The session is ended for good, whether or not the number is ahead, and that is pushed. */
  lemma EndedEffect(v: IngestVal, conn: ConnId, id: string, n: int64, env: Env)
    requires Ready(v, env) && Registered(v, conn)
    ensures var w := Handle(v, conn, SessionEnded(id, n), env).0;
            if id !in v.reg.m then w == v
            else
              && w.conns == v.conns && OnlyChanges(v.reg, w.reg, id)
              && w.reg.m[id] == v.reg.m[id].(state := Ended, ended := true, touched := env.now,
                   lastSeq := Greater(v.reg.m[id].lastSeq, n))
              && w.pushes == v.pushes + [EndedPush(id)]
  {
    RegisteredHandle(v, conn, SessionEnded(id, n), env);
    if id in v.reg.m { RaiseEffect(v.reg, id, n, env.now); }
  }

  /** What pausing a machine makes of a session. */
  function PausedAs(s: SessionVal, machineID: string, now: nat): SessionVal {
    if s.machineID == machineID && !s.ended && s.state != Status.Paused then s.(state := Status.Paused, touched := now)
    else s
  }

  lemma PauseEffect(v: RegVal, machineID: string, now: nat)
    ensures var w := PauseAllForMachine(v, machineID, now);
            && w == v.(m := w.m) && w.m.Keys == v.m.Keys
            && forall k :: k in v.m ==> w.m[k] == PausedAs(v.m[k], machineID, now)
  {
  }

  /** The sessions of the connection's machine that have not ended are paused; no others change. */
  lemma SuspendingEffect(v: IngestVal, conn: ConnId, env: Env)
    requires Ready(v, env) && Registered(v, conn)
    ensures var w := Handle(v, conn, MachineSuspending, env).0;
            && w == v.(reg := v.reg.(m := w.reg.m)) && w.reg.m.Keys == v.reg.m.Keys
            && forall k :: k in v.reg.m ==> w.reg.m[k] == PausedAs(v.reg.m[k], v.conns[conn].machineID, env.now)
  {
    RegisteredHandle(v, conn, MachineSuspending, env);
    PauseEffect(v.reg, v.conns[conn].machineID, env.now);
  }

  /** So does losing the connection, which is then unknown; one that never registered is only forgotten. */
  lemma CloseEffect(v: IngestVal, conn: ConnId, now: nat)
    ensures var w := CloseConn(v, conn, now);
            && w == v.(reg := v.reg.(m := w.reg.m), conns := w.conns) && w.reg.m.Keys == v.reg.m.Keys
            && w.conns.Keys == v.conns.Keys - {conn} && (forall c :: c in w.conns ==> w.conns[c] == v.conns[c])
            && forall k :: k in v.reg.m ==>
                 w.reg.m[k] ==
                 if Registered(v, conn) then PausedAs(v.reg.m[k], v.conns[conn].machineID, now) else v.reg.m[k]
  {
    if Registered(v, conn) {
      PauseEffect(v.reg, v.conns[conn].machineID, now);
    }
  }

  // ---------------------------------------------------------------------------------------------
  // Frames that carry an entry
  // ---------------------------------------------------------------------------------------------

  /** The entry an event or a chunk brings under number `n`. */
  ghost predicate Brings(fr: DaemonFrame, e: Entry) {
    || (fr.SessionEvent? && e.seqNo == fr.seqNo && e.kind == EventEntry && e.ts == fr.ts && e.payload == fr.raw)
    || (fr.SessionPty? && e.seqNo == fr.seqNo && e.kind == PtyEntry && e.ts == fr.ts && e.payload == fr.raw)
  }

  /** The kinds of event that notify the user. */
  predicate Notifies(fr: DaemonFrame) {
    fr.SessionEvent? && fr.kind in {AttentionDialog, ToolFailure, QueueUpdate, ExtensionError, CompactionEnd}
  }

  /** A stale number, or an unknown session: nothing changes. */
  lemma StaleEffect(v: IngestVal, conn: ConnId, fr: DaemonFrame, env: Env)
    requires Ready(v, env) && Registered(v, conn) && (fr.SessionEvent? || fr.SessionPty?)
    requires fr.id !in v.reg.m || fr.seqNo <= v.reg.m[fr.id].lastSeq
    ensures Handle(v, conn, fr, env).0 == v
  {
    RegisteredHandle(v, conn, fr, env);
  }

  lemma RaisedBefore(v: RegVal, id: string, n: int64, now: nat)
    requires RegistryRuns.RingsBudgeted(v) && SeqInv(v) && id in v.m && n > v.m[id].lastSeq
    ensures var w := RaiseSeq(v, id, n, now);
            && OnlyChanges(v, w, id) && w.m[id] == v.m[id].(lastSeq := n, touched := now)
            && RegistryRuns.RingsBudgeted(w) && TotalBytes(w.m) == TotalBytes(v.m) && n > 0
  {
    assert SeqOrdered(v.m[id]);
    RaiseEffect(v, id, n, now);
    TotalBytesUpdate(v.m, id, v.m[id].(lastSeq := n, touched := now));
  }

  lemma AcceptedIngest(reg: RegVal, id: string, n: int64, e: Entry, env: Env)
    requires reg.floor >= 0 && Enumerates(env.order, reg.m.Keys)
    requires id in reg.m && n > reg.m[id].lastSeq >= 0 && e.seqNo == n
    ensures Ingest(reg, id, n, e.kind, e.ts, e.payload, env) ==
            Publish(RaiseSeq(reg, id, n, env.now), id, e, env.now, env.order, env.f)
    ensures id in Ingest(reg, id, n, e.kind, e.ts, e.payload, env).m
  {
    assert e == Entry(ToUint64(n), e.kind, e.ts, e.payload);
    IngestShape(reg, id, n, e.kind, e.ts, e.payload, env);
  }

  lemma KindsNotify(fr: DaemonFrame)
    requires fr.SessionEvent?
    ensures FiresPush(fr.kind) <==> Notifies(fr)
  {
  }

  lemma EventReg(v: IngestVal, fr: DaemonFrame, env: Env)
    requires Ready(v, env) && fr.SessionEvent? && fr.id in v.reg.m && fr.seqNo > v.reg.m[fr.id].lastSeq
    ensures var reg := Ingest(v.reg, fr.id, fr.seqNo, EventEntry, fr.ts, fr.raw, env);
            var push := if Notifies(fr) then [EventPush(fr.id, v.reg.m[fr.id].epoch, fr.seqNo, fr.kind)] else [];
            HandleEvent(v, fr, env) == v.(reg := reg, pushes := v.pushes + push)
  {
    IngestShape(v.reg, fr.id, fr.seqNo, EventEntry, fr.ts, fr.raw, env);
    var reg := Ingest(v.reg, fr.id, fr.seqNo, EventEntry, fr.ts, fr.raw, env);
    assert v.pushes + [] == v.pushes;
    KindsNotify(fr);
    assert fr.id in reg.m;
  }

  lemma DataDispatch(v: IngestVal, conn: ConnId, fr: DaemonFrame, env: Env)
    requires Ready(v, env)
    ensures fr.SessionEvent? ==> Dispatch(v, conn, fr, env) == (HandleEvent(v, fr, env), None)
    ensures fr.SessionPty? ==>
              Dispatch(v, conn, fr, env) ==
              (v.(reg := Ingest(v.reg, fr.id, fr.seqNo, PtyEntry, fr.ts, fr.raw, env)), None)
  {
  }

  lemma AcceptedReg(v: IngestVal, conn: ConnId, fr: DaemonFrame, env: Env, e: Entry)
    requires Ready(v, env) && Registered(v, conn) && (fr.SessionEvent? || fr.SessionPty?)
    requires fr.id in v.reg.m && fr.seqNo > v.reg.m[fr.id].lastSeq >= 0 && Brings(fr, e)
    ensures var w := Handle(v, conn, fr, env).0;
            && w == v.(reg := w.reg, pushes := w.pushes)
            && w.reg == Publish(RaiseSeq(v.reg, fr.id, fr.seqNo, env.now), fr.id, e, env.now, env.order, env.f)
            && w.pushes == v.pushes +
                 if Notifies(fr) then [EventPush(fr.id, v.reg.m[fr.id].epoch, fr.seqNo, fr.kind)] else []
  {
    RegisteredHandle(v, conn, fr, env);
    AcceptedIngest(v.reg, fr.id, fr.seqNo, e, env);
    DataDispatch(v, conn, fr, env);
    if fr.SessionEvent? {
      EventReg(v, fr, env);
    } else {
      assert v.pushes + [] == v.pushes;
    }
  }

  /**
   A number ahead: the session is stamped and takes the number, its history grows by exactly the
   entry the frame brings, and an event of one of the five kinds is pushed. No other session changes
   in anything but the budget and the oldest entries of its ring.
   */
  lemma AcceptedEffect(v: IngestVal, conn: ConnId, fr: DaemonFrame, env: Env, e: Entry)
    requires Ready(v, env) && Registered(v, conn) && RegistryRuns.RingsBudgeted(v.reg) && SeqInv(v.reg)
    requires (fr.SessionEvent? || fr.SessionPty?) && fr.id in v.reg.m && fr.seqNo > v.reg.m[fr.id].lastSeq
    requires Brings(fr, e)
    ensures var w, s := Handle(v, conn, fr, env).0, v.reg.m[fr.id];
            && w == v.(reg := v.reg.(m := w.reg.m), pushes := w.pushes) && w.reg.m.Keys == v.reg.m.Keys
            && w.reg.m[fr.id] == s.(lastSeq := fr.seqNo, touched := env.now, ring := w.reg.m[fr.id].ring)
            && w.reg.m[fr.id].ring.history == s.ring.history + [e]
            && IsSuffix(w.reg.m[fr.id].ring.contents, s.ring.contents + [e])
            && (forall k :: k in v.reg.m && k != fr.id ==>
                 RegistryRuns.OnlyEvicted(v.reg.m[k], w.reg.m[k], v.reg.floor))
            && w.pushes == v.pushes + if Notifies(fr) then [EventPush(fr.id, s.epoch, fr.seqNo, fr.kind)] else []
  {
    assert SeqOrdered(v.reg.m[fr.id]);
    AcceptedReg(v, conn, fr, env, e);
    RaisedBefore(v.reg, fr.id, fr.seqNo, env.now);
    var w := RaiseSeq(v.reg, fr.id, fr.seqNo, env.now);
    PublishedSelf(w, fr.id, e, env);
    forall k | k in v.reg.m && k != fr.id
      ensures RegistryRuns.OnlyEvicted(v.reg.m[k], Handle(v, conn, fr, env).0.reg.m[k], v.reg.floor)
    {
      RegistryRuns.PublishLeavesOthers(w, fr.id, e, env.now, env.order, env.f, k);
    }
  }

  lemma PublishedSelf(v: RegVal, id: string, e: Entry, env: Env)
    requires RegistryRuns.RingsBudgeted(v) && Enumerates(env.order, v.m.Keys) && id in v.m
    ensures var w := Publish(v, id, e, env.now, env.order, env.f);
            && w == v.(m := w.m) && w.m.Keys == v.m.Keys
            && w.m[id] == v.m[id].(touched := env.now, ring := w.m[id].ring)
            && w.m[id].ring.history == v.m[id].ring.history + [e]
            && IsSuffix(w.m[id].ring.contents, v.m[id].ring.contents + [e])
  {
    var v1 := AppendTo(v, id, e, env.now);
    assert v1.m.Keys == v.m.Keys;
    RegistryRuns.RebalanceItems(v1, id, env.order, env.f);
    RegistryRuns.RebalanceEvictsOnly(v1, id, env.order, env.f, id);
    AppendKeepsSuffix(v.m[id].ring, e);
    SuffixTransitive(Publish(v, id, e, env.now, env.order, env.f).m[id].ring.contents,
      v1.m[id].ring.contents, v.m[id].ring.contents + [e]);
  }

  lemma AppendKeepsSuffix(w: Window, e: Entry)
    ensures IsSuffix(Append(w, e).contents, w.contents + [e]) && Append(w, e).history == w.history + [e]
  {
    FitFits(w.contents, w.maxBytes - |e.payload|);
    SuffixExtend(Fit(w.contents, w.maxBytes - |e.payload|), w.contents, e);
  }

  /** A ring's budget after a frame: the session's own one grows, but never beyond the cap. */
  function Budget(before: int, own: bool, cap: int, f: Scale): int {
    if !own then before else if f.grow(before) < cap then f.grow(before) else cap
  }

  /** What fits is stored and costs nobody anything: with room in its ring and under the cap, the entry
      joins the live ones of its session, and no session loses any. Under the mark the session's own
      budget grows, and no other one changes. */
  lemma FittingEntryIsStored(v: IngestVal, conn: ConnId, fr: DaemonFrame, env: Env, e: Entry)
    requires Ready(v, env) && Registered(v, conn) && RegistryRuns.RingsBudgeted(v.reg) && SeqInv(v.reg)
    requires (fr.SessionEvent? || fr.SessionPty?) && fr.id in v.reg.m && fr.seqNo > v.reg.m[fr.id].lastSeq
    requires Brings(fr, e)
    requires Size(v.reg.m[fr.id].ring.contents) + |e.payload| <= v.reg.m[fr.id].ring.maxBytes
    requires TotalBytes(v.reg.m) + |e.payload| <= v.reg.cap
    ensures var w := Handle(v, conn, fr, env).0;
            && w.reg.m.Keys == v.reg.m.Keys
            && (forall k :: k in v.reg.m ==>
                  w.reg.m[k].ring.contents == v.reg.m[k].ring.contents + if k == fr.id then [e] else [])
            && TotalBytes(w.reg.m) == TotalBytes(v.reg.m) + |e.payload|
            && (TotalBytes(w.reg.m) < env.f.mark(v.reg.cap) ==>
                  forall k :: k in v.reg.m ==>
                    w.reg.m[k].ring.maxBytes == Budget(v.reg.m[k].ring.maxBytes, k == fr.id, v.reg.cap, env.f))
  {
    assert SeqOrdered(v.reg.m[fr.id]);
    AcceptedReg(v, conn, fr, env, e);
    RaisedBefore(v.reg, fr.id, fr.seqNo, env.now);
    FittingPublish(RaiseSeq(v.reg, fr.id, fr.seqNo, env.now), fr.id, e, env);
  }

  /** Least recently used first: if a frame costs another session an entry, every live session touched
      before that one ends at or below the floor. */
  lemma AcceptedIsFair(v: IngestVal, conn: ConnId, fr: DaemonFrame, env: Env, older: string, loser: string)
    requires Ready(v, env) && Registered(v, conn) && SeqInv(v.reg) && (fr.SessionEvent? || fr.SessionPty?)
    requires older in v.reg.m && loser in v.reg.m && older != fr.id && loser != fr.id
    requires !v.reg.m[older].ended && v.reg.m[older].touched < v.reg.m[loser].touched
    ensures var w := Handle(v, conn, fr, env).0;
            && w.reg.m.Keys == v.reg.m.Keys
            && (w.reg.m[loser].ring.contents != v.reg.m[loser].ring.contents ==>
                  Size(w.reg.m[older].ring.contents) <= v.reg.floor)
  {
    if fr.id !in v.reg.m || fr.seqNo <= v.reg.m[fr.id].lastSeq {
      StaleEffect(v, conn, fr, env);
    } else {
      assert SeqOrdered(v.reg.m[fr.id]);
      var e := Entry(fr.seqNo, if fr.SessionEvent? then EventEntry else PtyEntry, fr.ts, fr.raw);
      AcceptedReg(v, conn, fr, env, e);
      RaiseEffect(v.reg, fr.id, fr.seqNo, env.now);
      FairPublish(RaiseSeq(v.reg, fr.id, fr.seqNo, env.now), fr.id, e, env, older, loser);
    }
  }

  lemma FairPublish(v: RegVal, id: string, e: Entry, env: Env, older: string, loser: string)
    requires v.floor >= 0 && Enumerates(env.order, v.m.Keys) && id in v.m
    requires older in v.m && loser in v.m && older != id && loser != id
    requires !v.m[older].ended && v.m[older].touched < v.m[loser].touched
    ensures var w := Publish(v, id, e, env.now, env.order, env.f);
            && w.m.Keys == v.m.Keys
            && (w.m[loser].ring.contents != v.m[loser].ring.contents ==> Size(w.m[older].ring.contents) <= v.floor)
  {
    var v1 := AppendTo(v, id, e, env.now);
    assert v1.m.Keys == v.m.Keys && v1.m[older] == v.m[older] && v1.m[loser] == v.m[loser];
    RegistryRuns.RebalanceItems(v1, id, env.order, env.f);
    if Rebalance(v1, id, env.order, env.f).m[loser].ring.contents != v1.m[loser].ring.contents {
      RegistryRuns.RebalanceIsFair(v1, id, env.order, env.f, older, loser);
    }
  }

  lemma FittingAppend(v: RegVal, id: string, e: Entry, now: nat)
    requires id in v.m && Size(v.m[id].ring.contents) + |e.payload| <= v.m[id].ring.maxBytes
    ensures var w := AppendTo(v, id, e, now);
            && w.m.Keys == v.m.Keys && TotalBytes(w.m) == TotalBytes(v.m) + |e.payload|
            && (forall k :: k in v.m ==> w.m[k].ring.maxBytes == v.m[k].ring.maxBytes)
            && forall k :: k in v.m ==> w.m[k].ring.contents == v.m[k].ring.contents + if k == id then [e] else []
  {
    var w := AppendTo(v, id, e, now);
    AppendDropsOnlyWhatMust(v.m[id].ring, e);
    SizeOfOneMore(v.m[id].ring.contents, e);
    TotalBytesUpdate(v.m, id, w.m[id]);
    forall k | k in v.m
      ensures w.m[k].ring.contents == v.m[k].ring.contents + if k == id then [e] else []
    {
      assert v.m[k].ring.contents + [] == v.m[k].ring.contents;
    }
  }

  lemma UnderCapNothingLost(v: RegVal, active: string, order: seq<string>, f: Scale, k: string)
    requires 0 <= v.floor <= v.cap && Enumerates(order, v.m.Keys) && k in v.m && TotalBytes(v.m) <= v.cap
    ensures Rebalance(v, active, order, f).m[k].ring.contents == v.m[k].ring.contents
  {
    TotalOfListing(v.m, order);
    GrowOrShrink(Items(v.m, order), active, v.cap, v.floor, f);
  }

  lemma FittingPublish(v: RegVal, id: string, e: Entry, env: Env)
    requires RegistryRuns.RingsBudgeted(v) && Enumerates(env.order, v.m.Keys) && id in v.m
    requires Size(v.m[id].ring.contents) + |e.payload| <= v.m[id].ring.maxBytes
    requires TotalBytes(v.m) + |e.payload| <= v.cap
    ensures var w := Publish(v, id, e, env.now, env.order, env.f);
            && w.m.Keys == v.m.Keys && TotalBytes(w.m) == TotalBytes(v.m) + |e.payload|
            && (forall k :: k in v.m ==> w.m[k].ring.contents == v.m[k].ring.contents + if k == id then [e] else [])
            && (TotalBytes(w.m) < env.f.mark(v.cap) ==>
                  forall k :: k in v.m ==>
                    w.m[k].ring.maxBytes == Budget(v.m[k].ring.maxBytes, k == id, v.cap, env.f))
  {
    var v1 := AppendTo(v, id, e, env.now);
    FittingAppend(v, id, e, env.now);
    var w := Rebalance(v1, id, env.order, env.f);
    RegistryRuns.RebalanceItems(v1, id, env.order, env.f);
    forall k | k in v1.m ensures w.m[k].ring.contents == v1.m[k].ring.contents {
      UnderCapNothingLost(v1, id, env.order, env.f, k);
    }
    if TotalBytes(v1.m) < env.f.mark(v.cap) {
      forall k | k in v1.m
        ensures w.m[k].ring.maxBytes == Budget(v1.m[k].ring.maxBytes, k == id, v.cap, env.f)
      {
        RegistryRuns.RebalanceGrowsExactly(v1, id, env.order, env.f, k);
      }
    }
    SameContentsSameTotal(v1.m, w.m);
  }

  lemma {:induction false} SameContentsSameTotal(a: map<string, SessionVal>, b: map<string, SessionVal>)
    requires a.Keys == b.Keys && forall k :: k in a ==> b[k].ring.contents == a[k].ring.contents
    ensures TotalBytes(a) == TotalBytes(b)
    decreases |a|
  {
    if a != map[] {
      var k :| k in a;
      TotalBytesWithout(a, k);
      TotalBytesWithout(b, k);
      SameContentsSameTotal(a - {k}, b - {k});
    } else {
      assert b == map[];
    }
  }
}
