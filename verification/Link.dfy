/**
 The daemon and the coordinator together. Producers take a number and write their frame in two
 separate steps, the link goes down and comes back anywhere, and either side of a broken link
 notices on its own. The coordinator is `IngestSpec.Handle`.
 */
module Link {
  import opened Base
  import opened Ring
  import opened RegistrySpec
  import opened IngestSpec
  import opened MuxSpec
  import IngestRuns
  import RegistryRuns

  /** What takes a number. */
  datatype Body =
    | EventBody(kind: EventKind, ts: int, raw: seq<byte>)
    | PtyBody(ts: int, raw: seq<byte>)
    | StateBody(to: Status)
    | EndBody

  function Framed(id: string, n: int64, b: Body): DaemonFrame {
    match b
    case EventBody(kind, ts, raw) => SessionEvent(id, n, kind, ts, raw)
    case PtyBody(ts, raw) => SessionPty(id, n, ts, raw)
    case StateBody(to) => SessionStateChange(id, n, to)
    case EndBody => SessionEnded(id, n)
  }

  /** The session and number of a frame that took one. */
  function Ticket(fr: DaemonFrame): Option<(string, int64)> {
    match fr
    case SessionEvent(id, n, _, _, _) => Some((id, n))
    case SessionPty(id, n, _, _) => Some((id, n))
    case SessionStateChange(id, n, _) => Some((id, n))
    case SessionEnded(id, n) => Some((id, n))
    case _ => None
  }

  function EntryOf(n: uint64, b: Body): Entry
    requires b.EventBody? || b.PtyBody?
  {
    match b
    case EventBody(_, ts, raw) => Entry(n, EventEntry, ts, raw)
    case PtyBody(ts, raw) => Entry(n, PtyEntry, ts, raw)
  }

  datatype Net = Net(
    mux: Mux,
    allocs: map<string, seq<Body>>,   // per session, what took its numbers, in order
    dropped: set<string>,             // sessions whose allocator has been dropped
    reused: set<string>,              // of these, the ones that have taken a number again
    held: seq<DaemonFrame>,           // built, not yet written
    up: bool,                         // the daemon believes it is connected
    reading: bool,                    // the coordinator reads this connection
    wire: seq<DaemonFrame>,           // written, not yet read
    conn: ConnId,
    coord: IngestVal)

  datatype Step =
    | TakeNumber(id: string, body: Body)
    | Build(fr: DaemonFrame)                            // a frame without a number
    | Write(i: nat)                                     // or drop, when down
    | WriteFails(i: nat)
    | Forget(id: string)                                // dropAlloc after the end
    | NoticeDown
    | Closed(conn: ConnId, now: nat)                    // the coordinator sees a connection end
    | Touched(id: string, now: nat)                     // a client attaches to or leaves a session
    | Connect(machineID: string, ids: seq<string>)      // dial and handshake
    | Deliver(env: Env)
    | Restart                                           // of the coordinator

  function AllocsOf(s: Net, id: string): seq<Body> {
    if id in s.allocs then s.allocs[id] else []
  }

  ghost predicate Enabled(s: Net, step: Step) {
    match step
    case TakeNumber(id, _) => Peek(s.mux, id) + 1 < INT64_END
    case Build(fr) => fr.SessionStarted? || fr.SpawnResponse? || fr.MachineSuspending?
    case Write(i) => i < |s.held|
    case WriteFails(i) => i < |s.held|
    case Connect(_, ids) => forall i :: 0 <= i < |ids| ==> Peek(s.mux, ids[i]) < INT64_END
    case Deliver(env) =>
      s.reading && s.wire != [] && s.coord.reg.floor >= 0 && Enumerates(env.order, s.coord.reg.m.Keys)
    case _ => true
  }

  function Resumes(mux: Mux, ids: seq<string>): (r: seq<DaemonFrame>)
    ensures |r| == |ids|
  {
    seq(|ids|, i requires 0 <= i < |ids| => ResumeFrame(ids[i], Peek(mux, ids[i])))
  }

  function Without(fs: seq<DaemonFrame>, i: nat): seq<DaemonFrame>
    requires i < |fs|
  {
    fs[..i] + fs[i + 1..]
  }

  function Do(s: Net, step: Step): Net
    requires Enabled(s, step)
  {
    match step
    case TakeNumber(id, body) =>
      var mux, reused := Take(s.mux, id), if id in s.dropped then s.reused + {id} else s.reused;
      s.(mux := mux, reused := reused,
         allocs := if id in reused then s.allocs else s.allocs[id := AllocsOf(s, id) + [body]],
         held := s.held + [Framed(id, Peek(mux, id), body)])
    case Build(fr) =>
      s.(mux := if fr.SessionStarted? then Track(s.mux, fr.id) else s.mux, held := s.held + [fr])
    case Write(i) =>
      s.(held := Without(s.held, i), wire := if s.up && s.reading then s.wire + [s.held[i]] else s.wire)
    case WriteFails(i) => s.(held := Without(s.held, i))
    case Forget(id) => s.(mux := Untrack(s.mux, id), dropped := s.dropped + {id})
    case NoticeDown => s.(up := false)
    case Closed(c, now) =>
      s.(reading := s.reading && c != s.conn, wire := if c == s.conn then [] else s.wire,
         coord := CloseConn(s.coord, c, now))
    case Touched(id, now) => s.(coord := s.coord.(reg := Touch(s.coord.reg, id, now)))
    case Connect(machineID, ids) =>
      s.(up := true, reading := true, conn := s.conn + 1, wire := [MachineRegister(machineID)] + Resumes(s.mux, ids))
    case Deliver(env) =>
      s.(wire := s.wire[1..], coord := Handle(s.coord, s.conn, s.wire[0], env).0)
    case Restart =>
      s.(up := false, reading := false, wire := [],
         coord := IngestVal(RegVal(map[], s.coord.reg.cap, s.coord.reg.floor, 0), map[], []))
  }

  function Start(cap: int, floor: int): Net {
    Net(Mux(map[], map[]), map[], {}, {}, [], false, false, [], 0, IngestVal(RegVal(map[], cap, floor, 0), map[], []))
  }

  ghost predicate IsRun(trace: seq<Net>, steps: seq<Step>, cap: int, floor: int) {
    && |trace| == |steps| + 1 && trace[0] == Start(cap, floor)
    && forall i :: 0 <= i < |steps| ==> Enabled(trace[i], steps[i]) && trace[i + 1] == Do(trace[i], steps[i])
  }

  // ---------------------------------------------------------------------------------------------
  // Every accepted frame is one that took its number
  // ---------------------------------------------------------------------------------------------

  /** `fr` carries what took its number, if its session still counts from the first number on. */
  ghost predicate Genuine(s: Net, fr: DaemonFrame) {
    Ticket(fr).Some? && Ticket(fr).value.0 !in s.reused ==>
      var (id, n) := Ticket(fr).value;
      1 <= n <= |AllocsOf(s, id)| && fr == Framed(id, n, AllocsOf(s, id)[n - 1])
  }

  ghost predicate Counted(s: Net) {
    forall id :: id !in s.reused ==>
      |AllocsOf(s, id)| < INT64_END && (id !in s.dropped ==> |AllocsOf(s, id)| == Peek(s.mux, id))
  }

  /** The entry is what took its number. */
  ghost predicate FromAlloc(e: Entry, allocs: seq<Body>) {
    && 1 <= e.seqNo <= |allocs|
    && (allocs[e.seqNo - 1].EventBody? || allocs[e.seqNo - 1].PtyBody?)
    && e == EntryOf(e.seqNo, allocs[e.seqNo - 1])
  }

  ghost predicate HistoryFromAllocs(s: Net, id: string) {
    id in s.coord.reg.m && id !in s.reused ==>
      forall e :: e in s.coord.reg.m[id].ring.history ==> FromAlloc(e, AllocsOf(s, id))
  }

  ghost predicate Inv(s: Net) {
    && IngestInv(s.coord) && Counted(s)
    && (forall fr :: fr in s.held ==> Genuine(s, fr))
    && (forall fr :: fr in s.wire ==> Genuine(s, fr))
    && (forall id :: HistoryFromAllocs(s, id))
  }

  lemma AllocsGrow(s: Net, s': Net, id: string, body: Body)
    requires s.reused <= s'.reused && s'.coord == s.coord
    requires s'.allocs == if id in s'.reused then s.allocs else s.allocs[id := AllocsOf(s, id) + [body]]
    ensures forall fr :: Genuine(s, fr) ==> Genuine(s', fr)
    ensures forall k :: HistoryFromAllocs(s, k) ==> HistoryFromAllocs(s', k)
  {
    forall fr | Genuine(s, fr) ensures Genuine(s', fr) {
      if Ticket(fr).Some? && Ticket(fr).value.0 !in s'.reused {
        var k := Ticket(fr).value.0;
        assert AllocsOf(s', k) == AllocsOf(s, k) + if k == id then [body] else [];
      }
    }
    forall k | HistoryFromAllocs(s, k) ensures HistoryFromAllocs(s', k) {
      assert k !in s'.reused ==> AllocsOf(s', k) == AllocsOf(s, k) + if k == id then [body] else [];
    }
  }

  lemma TakeKeeps(s: Net, id: string, body: Body)
    requires Inv(s) && Enabled(s, TakeNumber(id, body))
    ensures Inv(Do(s, TakeNumber(id, body)))
  {
    var s' := Do(s, TakeNumber(id, body));
    AllocsGrow(s, s', id, body);
    assert Genuine(s', Framed(id, Peek(s'.mux, id), body));
  }

  /** Steps that change neither the allocations nor any session keep what concerns them. */
  lemma SameSourcesKeep(s: Net, s': Net)
    requires Inv(s) && s'.allocs == s.allocs && s.reused <= s'.reused
    requires IngestInv(s'.coord) && Counted(s')
    requires forall id :: id in s'.coord.reg.m ==>
      id in s.coord.reg.m && s'.coord.reg.m[id].ring.history == s.coord.reg.m[id].ring.history
    requires forall fr :: fr in s'.held ==> fr in s.held || Ticket(fr).None?
    requires forall fr :: fr in s'.wire ==> fr in s.wire || fr in s.held || Ticket(fr).None?
    ensures Inv(s')
  {
    forall fr | Genuine(s, fr) ensures Genuine(s', fr) {
    }
    forall id ensures HistoryFromAllocs(s', id) {
      assert HistoryFromAllocs(s, id);
    }
  }

  /** The ring entry that an accepted frame becomes. */
  function EntryFrom(fr: DaemonFrame): Option<Entry> {
    match fr
    case SessionEvent(_, n, _, ts, raw) => Some(Entry(ToUint64(n), EventEntry, ts, raw))
    case SessionPty(_, n, ts, raw) => Some(Entry(ToUint64(n), PtyEntry, ts, raw))
    case _ => None
  }

  /** What one received frame may do to a session's history: start it, keep it, or add the frame. */
  ghost predicate HistoryStep(a: RegVal, b: RegVal, fr: DaemonFrame, id: string) {
    id in b.m ==>
      || b.m[id].ring.history == []
      || (id in a.m && b.m[id].ring.history == a.m[id].ring.history)
      || (&& id in a.m && EntryFrom(fr).Some? && Ticket(fr).value.0 == id && Ticket(fr).value.1 > a.m[id].lastSeq
          && b.m[id].ring.history == a.m[id].ring.history + [EntryFrom(fr).value])
  }

  lemma HistoryFrom(a: RegVal, b: RegVal, fr: DaemonFrame, k: string, n: int64, e: Entry, id: string)
    requires Ticket(fr) == Some((k, n)) && EntryFrom(fr) == Some(e) && b.m.Keys == a.m.Keys
    requires id in a.m ==>
      b.m[id].ring.history == a.m[id].ring.history + if id == k && Advances(a, k, n) then [e] else []
    ensures HistoryStep(a, b, fr, id)
  {
  }

  lemma EventReg(v: IngestVal, fr: DaemonFrame, env: Env)
    requires v.reg.floor >= 0 && Enumerates(env.order, v.reg.m.Keys) && fr.SessionEvent?
    ensures HandleEvent(v, fr, env).reg == Ingest(v.reg, fr.id, fr.seqNo, EventEntry, fr.ts, fr.raw, env)
  {
  }

  lemma EventHistory(v: IngestVal, fr: DaemonFrame, env: Env, id: string)
    requires IngestInv(v) && Enumerates(env.order, v.reg.m.Keys) && fr.SessionEvent?
    ensures HistoryStep(v.reg, HandleEvent(v, fr, env).reg, fr, id)
  {
    EventReg(v, fr, env);
    IngestHistory(v.reg, fr, fr.id, fr.seqNo, EventEntry, fr.ts, fr.raw, env, id);
  }

  lemma IngestHistory(reg: RegVal, fr: DaemonFrame, k: string, n: int64, kind: EntryKind, ts: int, raw: seq<byte>,
                      env: Env, id: string)
    requires RegistryRuns.RingsBudgeted(reg) && SeqInv(reg) && Enumerates(env.order, reg.m.Keys)
    requires Ticket(fr) == Some((k, n)) && EntryFrom(fr) == Some(Entry(ToUint64(n), kind, ts, raw))
    ensures HistoryStep(reg, Ingest(reg, k, n, kind, ts, raw, env), fr, id)
  {
    IngestAppends(reg, k, n, kind, ts, raw, env, id);
    HistoryFrom(reg, Ingest(reg, k, n, kind, ts, raw, env), fr, k, n, Entry(ToUint64(n), kind, ts, raw), id);
  }

  lemma StateChangeHistory(v: IngestVal, fr: DaemonFrame, env: Env, id: string)
    requires fr.SessionStateChange?
    ensures HistoryStep(v.reg, HandleStateChange(v, fr, env).reg, fr, id)
  {
  }

  lemma EndedHistory(v: IngestVal, fr: DaemonFrame, env: Env, id: string)
    requires fr.SessionEnded?
    ensures HistoryStep(v.reg, HandleEnded(v, fr, env).reg, fr, id)
  {
  }

  lemma ResumeHistory(reg: RegVal, fr: DaemonFrame, machineID: string, now: nat, id: string)
    requires fr.SessionResume?
    ensures HistoryStep(reg, Resume(reg, fr.id, machineID, fr.lastSeqEmitted, now), fr, id)
  {
  }

  lemma StartedHistory(reg: RegVal, fr: DaemonFrame, now: nat, id: string)
    requires fr.SessionStarted?
    ensures HistoryStep(reg, RegistrySpec.Register(reg, fr.id, fr.machineID, now), fr, id)
  {
  }

  lemma PausedHistory(reg: RegVal, fr: DaemonFrame, machineID: string, now: nat, id: string)
    ensures HistoryStep(reg, PauseAllForMachine(reg, machineID, now), fr, id)
  {
  }

  /** A frame that carries no ring entry. */
  lemma ControlHistory(v: IngestVal, conn: ConnId, fr: DaemonFrame, env: Env, id: string)
    requires v.reg.floor >= 0 && Enumerates(env.order, v.reg.m.Keys) && !fr.SessionEvent? && !fr.SessionPty?
    ensures HistoryStep(v.reg, Dispatch(v, conn, fr, env).0.reg, fr, id)
  {
    match fr {
      case SessionStarted(_, _) => StartedHistory(v.reg, fr, env.now, id);
      case SessionStateChange(_, _, _) => StateChangeHistory(v, fr, env, id);
      case SessionEnded(_, _) => EndedHistory(v, fr, env, id);
      case SessionResume(_, _) => ResumeHistory(v.reg, fr, StateFor(v, conn).machineID, env.now, id);
      case MachineSuspending => PausedHistory(v.reg, fr, StateFor(v, conn).machineID, env.now, id);
      case _ =>
    }
  }

  lemma DispatchHistory(v: IngestVal, conn: ConnId, fr: DaemonFrame, env: Env, id: string)
    requires IngestInv(v) && Enumerates(env.order, v.reg.m.Keys)
    ensures HistoryStep(v.reg, Dispatch(v, conn, fr, env).0.reg, fr, id)
  {
    if fr.SessionEvent? {
      EventHistory(v, fr, env, id);
    } else if fr.SessionPty? {
      IngestHistory(v.reg, fr, fr.id, fr.seqNo, PtyEntry, fr.ts, fr.raw, env, id);
    } else {
      ControlHistory(v, conn, fr, env, id);
    }
  }

  lemma ConnsInv(v: IngestVal, conn: ConnId)
    requires IngestInv(v)
    ensures IngestInv(v.(conns := v.conns[conn := StateFor(v, conn)]))
  {
  }

  lemma HandleHistory(v: IngestVal, conn: ConnId, fr: DaemonFrame, env: Env, id: string)
    requires IngestInv(v) && Enumerates(env.order, v.reg.m.Keys)
    ensures HistoryStep(v.reg, Handle(v, conn, fr, env).0.reg, fr, id)
  {
    var v1 := v.(conns := v.conns[conn := StateFor(v, conn)]);
    ConnsInv(v, conn);
    DispatchHistory(v1, conn, fr, env, id);
  }

  lemma IngestAppends(reg: RegVal, k: string, n: int64, kind: EntryKind, ts: int, raw: seq<byte>, env: Env, id: string)
    requires RegistryRuns.RingsBudgeted(reg) && SeqInv(reg) && Enumerates(env.order, reg.m.Keys)
    ensures var reg' := Ingest(reg, k, n, kind, ts, raw, env);
            && reg'.m.Keys == reg.m.Keys
            && (id in reg.m ==>
                  var grown := if id == k && Advances(reg, k, n) then [Entry(ToUint64(n), kind, ts, raw)] else [];
                  reg'.m[id].ring.history == reg.m[id].ring.history + grown)
  {
    IngestShape(reg, k, n, kind, ts, raw, env);
    if Advances(reg, k, n) && id in reg.m {
      AdvanceAppends(reg, k, n, Entry(ToUint64(n), kind, ts, raw), env, id);
    }
  }

  lemma AdvanceAppends(reg: RegVal, k: string, n: int64, e: Entry, env: Env, id: string)
    requires RegistryRuns.RingsBudgeted(reg) && Enumerates(env.order, reg.m.Keys) && Advances(reg, k, n) && id in reg.m
    ensures var reg' := Publish(RaiseSeq(reg, k, n, env.now), k, e, env.now, env.order, env.f);
            id in reg'.m && reg'.m[id].ring.history == reg.m[id].ring.history + if id == k then [e] else []
  {
    RaiseSeqShape(reg, k, n, env.now);
    PublishHistories(RaiseSeq(reg, k, n, env.now), k, e, env, id);
  }

  // ---------------------------------------------------------------------------------------------
  // Every step keeps the invariant
  // ---------------------------------------------------------------------------------------------

  lemma AppendedFromAlloc(s: Net, fr: DaemonFrame, id: string)
    requires Genuine(s, fr) && EntryFrom(fr).Some? && Ticket(fr).value.0 == id && id !in s.reused
    ensures FromAlloc(EntryFrom(fr).value, AllocsOf(s, id))
  {
  }

  lemma DeliverHistory(s: Net, env: Env, id: string)
    requires Inv(s) && Enabled(s, Deliver(env))
    ensures HistoryFromAllocs(Do(s, Deliver(env)), id)
  {
    var s', fr := Do(s, Deliver(env)), s.wire[0];
    HandleHistory(s.coord, s.conn, fr, env, id);
    assert HistoryFromAllocs(s, id) && Genuine(s, fr);
    if id !in s.reused && EntryFrom(fr).Some? && Ticket(fr).value.0 == id { AppendedFromAlloc(s, fr, id); }
  }

  lemma DeliverKeeps(s: Net, env: Env)
    requires Inv(s) && Enabled(s, Deliver(env))
    ensures Inv(Do(s, Deliver(env)))
  {
    var s' := Do(s, Deliver(env));
    IngestRuns.HandleStep(s.coord, s.conn, s.wire[0], env);
    forall id ensures HistoryFromAllocs(s', id) { DeliverHistory(s, env, id); }
    forall fr | Genuine(s, fr) ensures Genuine(s', fr) {
    }
  }

  lemma StartInv(cap: int, floor: int)
    requires 0 < floor <= cap
    ensures IngestInv(IngestVal(RegVal(map[], cap, floor, 0), map[], []))
  {
    assert TotalBytes(map[]) == 0;
  }

  lemma SameRingsFrom(s: Net, s': Net, v: IngestVal)
    requires Inv(s) && IngestInv(v) && s' == s.(reading := s'.reading, wire := s'.wire, coord := v)
    requires forall fr :: fr in s'.wire ==> fr in s.wire
    requires v.reg.m.Keys == s.coord.reg.m.Keys
    requires forall id :: id in v.reg.m ==> v.reg.m[id].ring == s.coord.reg.m[id].ring
    ensures Inv(s')
  {
    SameSourcesKeep(s, s');
  }

  lemma ClosedKeeps(s: Net, conn: ConnId, now: nat)
    requires Inv(s)
    ensures Inv(Do(s, Closed(conn, now)))
  {
    IngestRuns.CloseStep(s.coord, conn, now);
    IngestRuns.CloseKeepsNumbers(s.coord, conn, now);
    SameRingsFrom(s, Do(s, Closed(conn, now)), CloseConn(s.coord, conn, now));
  }

  lemma TouchedKeeps(s: Net, id: string, now: nat)
    requires Inv(s)
    ensures Inv(Do(s, Touched(id, now)))
  {
    var v := s.coord.(reg := Touch(s.coord.reg, id, now));
    assert Do(s, Touched(id, now)) == s.(coord := v);
    IngestRuns.TouchStep(s.coord, id, now);
    IngestRuns.TouchKeepsNumbers(s.coord.reg, id, now);
    SameRingsFrom(s, s.(coord := v), v);
  }

  lemma RestartKeeps(s: Net)
    requires Inv(s)
    ensures Inv(Do(s, Restart))
  {
    StartInv(s.coord.reg.cap, s.coord.reg.floor);
    SameSourcesKeep(s, Do(s, Restart));
  }

  lemma ConnectKeeps(s: Net, step: Step)
    requires Inv(s) && Enabled(s, step) && step.Connect?
    ensures Inv(Do(s, step))
  {
    SameSourcesKeep(s, Do(s, step));
  }

  /** Steps of the daemon alone, other than taking a number. */
  lemma ProducerKeeps(s: Net, step: Step)
    requires Inv(s) && Enabled(s, step)
    requires step.Build? || step.Write? || step.WriteFails? || step.Forget? || step.NoticeDown?
    ensures Inv(Do(s, step))
  {
    SameSourcesKeep(s, Do(s, step));
  }

  lemma StepKeeps(s: Net, step: Step)
    requires Inv(s) && Enabled(s, step)
    ensures Inv(Do(s, step))
  {
    match step {
      case TakeNumber(id, body) => TakeKeeps(s, id, body);
      case Deliver(env) => DeliverKeeps(s, env);
      case Closed(conn, now) => ClosedKeeps(s, conn, now);
      case Touched(id, now) => TouchedKeeps(s, id, now);
      case Connect(_, _) => ConnectKeeps(s, step);
      case Restart => RestartKeeps(s);
      case _ => ProducerKeeps(s, step);
    }
  }

  lemma {:induction false} RunKeeps(trace: seq<Net>, steps: seq<Step>, cap: int, floor: int, i: nat)
    requires IsRun(trace, steps, cap, floor) && 0 < floor <= cap && i < |trace|
    ensures Inv(trace[i])
  {
    if i == 0 {
      StartInv(cap, floor);
    } else {
      RunKeeps(trace, steps, cap, floor, i - 1);
      StepKeeps(trace[i - 1], steps[i - 1]);
    }
  }

  /** `at` picks the entries of `h` out of what took numbers, in the order in which it did. */
  ghost predicate Picks(at: seq<nat>, h: seq<Entry>, allocs: seq<Body>) {
    && |at| == |h|
    && (forall i, j :: 0 <= i < j < |at| ==> at[i] < at[j])
    && (forall i :: 0 <= i < |at| ==>
          && at[i] < |allocs| < INT64_END && (allocs[at[i]].EventBody? || allocs[at[i]].PtyBody?)
          && h[i] == EntryOf(at[i] + 1, allocs[at[i]]))
  }

  /**
   End to end, over every interleaving of producers, link failures, reconnects and coordinator
   restarts: until a session takes a number again after its end, the entries accepted into its
   ring are a subsequence of what took its numbers, in that order, each with its own number.
   */
  lemma AcceptedInAllocationOrder(trace: seq<Net>, steps: seq<Step>, cap: int, floor: int, i: nat, id: string)
    requires IsRun(trace, steps, cap, floor) && 0 < floor <= cap && i < |trace|
    requires id in trace[i].coord.reg.m && id !in trace[i].reused
    ensures exists at :: Picks(at, trace[i].coord.reg.m[id].ring.history, AllocsOf(trace[i], id))
  {
    RunKeeps(trace, steps, cap, floor, i);
    PicksFromInv(trace[i], id);
  }

  lemma PicksFromInv(s: Net, id: string)
    requires Inv(s) && id in s.coord.reg.m && id !in s.reused
    ensures exists at :: Picks(at, s.coord.reg.m[id].ring.history, AllocsOf(s, id))
  {
    assert SeqOrdered(s.coord.reg.m[id]) && HistoryFromAllocs(s, id);
    PicksFromHistory(s.coord.reg.m[id].ring.history, AllocsOf(s, id));
  }

  lemma PicksFromHistory(h: seq<Entry>, allocs: seq<Body>)
    requires Ascending(h) && |allocs| < INT64_END
    requires forall e :: e in h ==> FromAlloc(e, allocs)
    ensures exists at :: Picks(at, h, allocs)
  {
    var at: seq<nat> := seq(|h|, k requires 0 <= k < |h| => if h[k].seqNo > 0 then h[k].seqNo - 1 else 0);
    forall k | 0 <= k < |h| ensures FromAlloc(h[k], allocs) && at[k] == h[k].seqNo - 1 {
      assert h[k] in h;
    }
    assert Picks(at, h, allocs);
  }
}
