/**
 The link when taking a number and writing the frame are one step. Then no fresh frame is lost to
 the sequence gate: whatever arrives for a known session is accepted.
 */
module LinkResume {
  import opened Base
  import opened Ring
  import opened RegistrySpec
  import opened IngestSpec
  import opened MuxSpec
  import opened Link
  import opened LinkDrain
  import opened LinkGate
  import opened LinkHandshake
  import IngestRuns

  datatype AtomicStep =
    | Emit(id: string, body: Body, lost: bool)
    | EmitPlain(fr: DaemonFrame, lost: bool)
    | Only(step: Step)    // any step that neither takes a number nor builds or writes a frame

  /** The first of the small steps behind one atomic step. */
  function First(a: AtomicStep): Step {
    match a
    case Emit(id, body, _) => TakeNumber(id, body)
    case EmitPlain(fr, _) => Build(fr)
    case Only(step) => step
  }

  ghost predicate EnabledA(s: Net, a: AtomicStep) {
    && Enabled(s, First(a))
    && (a.Only? ==> !(a.step.TakeNumber? || a.step.Build? || a.step.Write? || a.step.WriteFails?))
    && s.held == []
  }

  function DoA(s: Net, a: AtomicStep): Net
    requires EnabledA(s, a)
  {
    match a
    case Emit(_, _, lost) => Do(Do(s, First(a)), if lost then WriteFails(0) else Write(0))
    case EmitPlain(_, lost) => Do(Do(s, First(a)), if lost then WriteFails(0) else Write(0))
    case Only(step) => Do(s, step)
  }

  // ---------------------------------------------------------------------------------------------
  // The numbers on the way
  // ---------------------------------------------------------------------------------------------

  /** Everything on the wire that took a number is ahead of the coordinator and of all before it. */
  ghost predicate InOrder(wire: seq<DaemonFrame>, last: int, top: int, id: string) {
    && 0 <= last <= top
    && (forall k :: 0 <= k < |wire| && NumberFor(wire[k], id).Some? ==> 0 <= NumberFor(wire[k], id).value <= top)
    && (forall k :: 0 <= k < |wire| && Ticket(wire[k]).Some? && Ticket(wire[k]).value.0 == id ==>
          last < Ticket(wire[k]).value.1)
    && (forall j, k :: 0 <= j < k < |wire| && NumberFor(wire[j], id).Some? &&
                       Ticket(wire[k]).Some? && Ticket(wire[k]).value.0 == id ==>
          NumberFor(wire[j], id).value < Ticket(wire[k]).value.1)
  }

  ghost predicate InOrderFor(s: Net, id: string) {
    InOrder(s.wire, LastIn(s.coord.reg, id), |AllocsOf(s, id)|, id)
  }

  ghost predicate InvA(s: Net) {
    Sound(s) && s.held == [] && forall id :: id !in s.reused ==> InOrderFor(s, id)
  }

  lemma OrderAppend(wire: seq<DaemonFrame>, last: int, top: int, id: string, fr: DaemonFrame)
    requires InOrder(wire, last, top, id)
    ensures Took(fr, id, top + 1) ==> InOrder(wire + [fr], last, top + 1, id)
    ensures NumberFor(fr, id).None? ==> InOrder(wire + [fr], last, top, id)
    ensures InOrder(wire, last, top + 1, id)
  {
  }

  lemma OrderPop(wire: seq<DaemonFrame>, g: Gate, top: int, id: string)
    requires InOrder(wire, g.last, top, id) && wire != [] && (!g.known ==> g.last == 0)
    ensures InOrder(wire[1..], Read(g, wire[0], id).last, top, id)
  {
  }

  // ---------------------------------------------------------------------------------------------
  // Every atomic step keeps the order
  // ---------------------------------------------------------------------------------------------

  /** What writing, or losing, one more frame leaves as it was. */
  ghost predicate SameBut(s: Net, s': Net, fr: DaemonFrame) {
    && s'.held == [] && s'.coord == s.coord && s'.conn == s.conn && s'.up == s.up && s'.reading == s.reading
    && s'.dropped == s.dropped && s.reused <= s'.reused
    && (s'.wire == s.wire || (s.reading && s'.wire == s.wire + [fr]))
  }

  lemma EmitShape(s: Net, id: string, body: Body, lost: bool)
    requires EnabledA(s, Emit(id, body, lost))
    ensures var s' := DoA(s, Emit(id, body, lost));
            && SameBut(s, s', Framed(id, Peek(s.mux, id) + 1, body))
            && (!lost && s.up && s.reading ==> s'.wire == s.wire + [Framed(id, Peek(s.mux, id) + 1, body)])
            && (id in s.dropped ==> id in s'.reused)
            && (forall k :: k !in s'.reused ==> |AllocsOf(s', k)| == |AllocsOf(s, k)| + if k == id then 1 else 0)
            && (forall k :: k != id ==> (k in s'.reused <==> k in s.reused))
  {
    var s1 := Do(s, TakeNumber(id, body));
    assert s1.held == [Framed(id, Peek(s.mux, id) + 1, body)];
    assert Without(s1.held, 0) == [];
  }

  lemma PlainShape(s: Net, fr: DaemonFrame, lost: bool)
    requires EnabledA(s, EmitPlain(fr, lost))
    ensures var s' := DoA(s, EmitPlain(fr, lost));
            SameBut(s, s', fr) && s'.reused == s.reused && s'.allocs == s.allocs && forall k :: NumberFor(fr, k).None?
  {
    var s1 := Do(s, Build(fr));
    assert s1.held == [fr];
    assert Without(s1.held, 0) == [];
  }

  lemma BothSound(s: Net, a: AtomicStep)
    requires Sound(s) && EnabledA(s, a)
    ensures Sound(DoA(s, a))
  {
    StepSound(s, First(a));
    match a {
      case Emit(_, _, lost) => StepSound(Do(s, First(a)), if lost then WriteFails(0) else Write(0));
      case EmitPlain(_, lost) => StepSound(Do(s, First(a)), if lost then WriteFails(0) else Write(0));
      case Only(_) =>
    }
  }

  /** A frame written at the end of the wire, with the next number of its session or with none. */
  lemma WireOrder(s: Net, s': Net, fr: DaemonFrame, k: string)
    requires InOrderFor(s, k) && s'.coord == s.coord && (s'.wire == s.wire || s'.wire == s.wire + [fr])
    requires if |AllocsOf(s', k)| == |AllocsOf(s, k)| then NumberFor(fr, k).None?
             else |AllocsOf(s', k)| == |AllocsOf(s, k)| + 1 && Took(fr, k, |AllocsOf(s', k)|)
    ensures InOrderFor(s', k)
  {
    OrderAppend(s.wire, LastIn(s.coord.reg, k), |AllocsOf(s, k)|, k, fr);
  }

  lemma EmitInOrder(s: Net, id: string, body: Body, lost: bool, k: string)
    requires EnabledA(s, Emit(id, body, lost)) && k !in DoA(s, Emit(id, body, lost)).reused && InOrderFor(s, k)
    requires id !in s.dropped && id !in s.reused ==> Peek(s.mux, id) == |AllocsOf(s, id)|
    ensures InOrderFor(DoA(s, Emit(id, body, lost)), k)
  {
    EmitShape(s, id, body, lost);
    FramedTicket(id, Peek(s.mux, id) + 1, body, k);
    WireOrder(s, DoA(s, Emit(id, body, lost)), Framed(id, Peek(s.mux, id) + 1, body), k);
  }

  lemma EmitKeeps(s: Net, id: string, body: Body, lost: bool)
    requires InvA(s) && EnabledA(s, Emit(id, body, lost))
    ensures InvA(DoA(s, Emit(id, body, lost)))
  {
    var s' := DoA(s, Emit(id, body, lost));
    BothSound(s, Emit(id, body, lost));
    EmitShape(s, id, body, lost);
    forall k | k !in s'.reused ensures InOrderFor(s', k) {
      EmitInOrder(s, id, body, lost, k);
    }
  }

  lemma PlainInOrder(s: Net, fr: DaemonFrame, lost: bool, k: string)
    requires EnabledA(s, EmitPlain(fr, lost)) && InOrderFor(s, k)
    ensures InOrderFor(DoA(s, EmitPlain(fr, lost)), k)
  {
    PlainShape(s, fr, lost);
    WireOrder(s, DoA(s, EmitPlain(fr, lost)), fr, k);
  }

  lemma PlainKeeps(s: Net, fr: DaemonFrame, lost: bool)
    requires InvA(s) && EnabledA(s, EmitPlain(fr, lost))
    ensures InvA(DoA(s, EmitPlain(fr, lost)))
  {
    var s' := DoA(s, EmitPlain(fr, lost));
    BothSound(s, EmitPlain(fr, lost));
    PlainShape(s, fr, lost);
    forall k | k !in s'.reused ensures InOrderFor(s', k) {
      PlainInOrder(s, fr, lost, k);
    }
  }

  lemma DeliverInOrder(s: Net, env: Env, id: string)
    requires InvA(s) && Enabled(s, Deliver(env)) && id !in s.reused
    ensures InOrderFor(Do(s, Deliver(env)), id)
  {
    OneRead(s, env, id);
    GateStart(s, id);
    assert InOrderFor(s, id);
    OrderPop(s.wire, GateOf(s.coord.reg, id), |AllocsOf(s, id)|, id);
  }

  lemma GreetingBrings(mux: Mux, machineID: string, ids: seq<string>, k: nat, id: string)
    requires k <= |ids| && forall i :: 0 <= i < |ids| ==> Peek(mux, ids[i]) < INT64_END
    ensures var fr := Greeting(mux, machineID, ids)[k];
            Ticket(fr).None? && (NumberFor(fr, id).Some? ==> NumberFor(fr, id).value == Peek(mux, id))
  {
    if k > 0 { GreetingAt(mux, machineID, ids, k - 1); }
  }

  lemma GreetingInOrder(mux: Mux, machineID: string, ids: seq<string>, last: int, top: int, id: string)
    requires forall i :: 0 <= i < |ids| ==> Peek(mux, ids[i]) < INT64_END
    requires 0 <= last <= top && Peek(mux, id) <= top
    ensures InOrder(Greeting(mux, machineID, ids), last, top, id)
  {
    forall k | 0 <= k <= |ids|
      ensures var fr := Greeting(mux, machineID, ids)[k];
              Ticket(fr).None? && (NumberFor(fr, id).Some? ==> NumberFor(fr, id).value == Peek(mux, id))
    {
      GreetingBrings(mux, machineID, ids, k, id);
    }
  }

  lemma PeekWithinAllocs(s: Net, id: string)
    requires InvA(s) && id !in s.reused
    ensures 0 <= LastIn(s.coord.reg, id) <= |AllocsOf(s, id)| && Peek(s.mux, id) <= |AllocsOf(s, id)|
  {
    assert InOrderFor(s, id);
  }

  lemma ConnectInOrder(s: Net, machineID: string, ids: seq<string>, id: string)
    requires InvA(s) && Enabled(s, Connect(machineID, ids)) && id !in s.reused
    ensures InOrderFor(Do(s, Connect(machineID, ids)), id)
  {
    PeekWithinAllocs(s, id);
    GreetingInOrder(s.mux, machineID, ids, LastIn(s.coord.reg, id), |AllocsOf(s, id)|, id);
  }

  lemma OnlyKeeps(s: Net, step: Step)
    requires InvA(s) && EnabledA(s, Only(step))
    ensures InvA(Do(s, step))
  {
    StepSound(s, step);
    forall id | id !in s.reused ensures InOrderFor(Do(s, step), id) {
      OnlyInOrder(s, step, id);
    }
  }

  lemma OnlyInOrder(s: Net, step: Step, id: string)
    requires InvA(s) && EnabledA(s, Only(step)) && id !in s.reused
    ensures InOrderFor(Do(s, step), id)
  {
    assert InOrderFor(s, id);
    match step {
      case Deliver(env) => DeliverInOrder(s, env, id);
      case Connect(machineID, ids) => ConnectInOrder(s, machineID, ids, id);
      case Closed(c, now) => IngestRuns.CloseKeepsNumbers(s.coord, c, now);
      case Touched(k, now) => TouchInOrder(s, k, now, id);
      case _ =>
    }
  }

  lemma TouchInOrder(s: Net, k: string, now: nat, id: string)
    requires InOrderFor(s, id)
    ensures InOrderFor(Do(s, Touched(k, now)), id)
  {
  }

  lemma AtomicStepKeeps(s: Net, a: AtomicStep)
    requires InvA(s) && EnabledA(s, a)
    ensures InvA(DoA(s, a))
  {
    match a {
      case Emit(id, body, lost) => EmitKeeps(s, id, body, lost);
      case EmitPlain(fr, lost) => PlainKeeps(s, fr, lost);
      case Only(step) => OnlyKeeps(s, step);
    }
  }

  // ---------------------------------------------------------------------------------------------
  // Runs
  // ---------------------------------------------------------------------------------------------

  ghost predicate IsAtomicRun(trace: seq<Net>, steps: seq<AtomicStep>, cap: int, floor: int) {
    && |trace| == |steps| + 1 && trace[0] == Start(cap, floor)
    && forall i :: 0 <= i < |steps| ==> EnabledA(trace[i], steps[i]) && trace[i + 1] == DoA(trace[i], steps[i])
  }

  lemma {:induction false} RunKeepsA(trace: seq<Net>, steps: seq<AtomicStep>, cap: int, floor: int, i: nat)
    requires IsAtomicRun(trace, steps, cap, floor) && 0 < floor <= cap && i < |trace|
    ensures InvA(trace[i])
  {
    if i == 0 {
      StartSound(cap, floor);
    } else {
      RunKeepsA(trace, steps, cap, floor, i - 1);
      AtomicStepKeeps(trace[i - 1], steps[i - 1]);
    }
  }

  lemma RunSnoc(t: seq<Net>, u: seq<Step>, cap: int, floor: int, step: Step)
    requires IsRun(t, u, cap, floor) && Enabled(t[|u|], step)
    ensures IsRun(t + [Do(t[|u|], step)], u + [step], cap, floor)
  {
  }

  /** An atomic run is a run of small steps: whatever holds over all runs holds for it. */
  lemma {:induction false} AtomicRunIsRun(trace: seq<Net>, steps: seq<AtomicStep>, cap: int, floor: int, i: nat)
    returns (t: seq<Net>, u: seq<Step>)
    requires IsAtomicRun(trace, steps, cap, floor) && i < |trace|
    ensures IsRun(t, u, cap, floor) && t[|u|] == trace[i]
  {
    if i == 0 {
      return [trace[0]], [];
    }
    t, u := AtomicRunIsRun(trace, steps, cap, floor, i - 1);
    var a, s := steps[i - 1], trace[i - 1];
    RunSnoc(t, u, cap, floor, First(a));
    t, u := t + [Do(s, First(a))], u + [First(a)];
    if !a.Only? {
      var second := if a.lost then WriteFails(0) else Write(0);
      RunSnoc(t, u, cap, floor, second);
      t, u := t + [Do(t[|u|], second)], u + [second];
    }
  }

  ghost predicate Arrives(s: Net, id: string) {
    s.reading && s.wire != [] && Ticket(s.wire[0]).Some? && Ticket(s.wire[0]).value.0 == id
  }

  lemma ArrivingFrameIsAccepted(s: Net, env: Env, id: string)
    requires InvA(s) && Enabled(s, Deliver(env)) && Arrives(s, id) && id !in s.reused
    ensures Accepted(s.coord.reg, Do(s, Deliver(env)).coord.reg, id, s.wire[0]) <==> id in s.coord.reg.m
  {
    assert InOrderFor(s, id);
    DecideHere(s, env, id, Ticket(s.wire[0]).value.1);
  }

  /**
   On every run from the start, with frames lost, the link broken and made anew, sessions ended and
   the coordinator restarted: an arriving frame is accepted if and only if its session is known,
   until the session takes a number again after its end. The frames still on their way when the
   allocator is dropped, and the end itself, are included.
   */
  lemma NoFreshFrameIsRefused(trace: seq<Net>, steps: seq<AtomicStep>, cap: int, floor: int, id: string, i: nat)
    requires IsAtomicRun(trace, steps, cap, floor) && 0 < floor <= cap
    requires i < |steps| && steps[i].Only? && steps[i].step.Deliver?
    requires Arrives(trace[i], id) && id !in trace[i].reused
    ensures Accepted(trace[i].coord.reg, trace[i + 1].coord.reg, id, trace[i].wire[0]) <==> id in trace[i].coord.reg.m
  {
    RunKeepsA(trace, steps, cap, floor, i);
    ArrivingFrameIsAccepted(trace[i], steps[i].step.env, id);
  }

  lemma StaysKnown(s: Net, a: AtomicStep, id: string)
    requires InvA(s) && EnabledA(s, a) && a != Only(Restart) && id in s.coord.reg.m
    ensures id in DoA(s, a).coord.reg.m
  {
    match a {
      case Emit(k, body, lost) => EmitShape(s, k, body, lost);
      case EmitPlain(fr, lost) => PlainShape(s, fr, lost);
      case Only(step) => OnlyStaysKnown(s, step, id);
    }
  }

  lemma CoordinatorAlone(s: Net, step: Step)
    requires Enabled(s, step) && !step.Deliver? && !step.Closed? && !step.Touched? && !step.Restart?
    ensures Do(s, step).coord == s.coord
  {
  }

  lemma ReadStaysKnown(s: Net, env: Env, id: string)
    requires InvA(s) && Enabled(s, Deliver(env)) && id in s.coord.reg.m
    ensures id in Do(s, Deliver(env)).coord.reg.m
  {
    IngestRuns.HandleStep(s.coord, s.conn, s.wire[0], env);
  }

  lemma OnlyStaysKnown(s: Net, step: Step, id: string)
    requires InvA(s) && Enabled(s, step) && step != Restart && id in s.coord.reg.m
    ensures id in Do(s, step).coord.reg.m
  {
    match step {
      case Deliver(env) => ReadStaysKnown(s, env, id);
      case Closed(c, now) => IngestRuns.CloseKeepsNumbers(s.coord, c, now);
      case Touched(k, now) => IngestRuns.TouchKeepsNumbers(s.coord.reg, k, now);
      case _ => CoordinatorAlone(s, step);
    }
  }

  /** A session once known stays known as long as the coordinator does not restart. */
  lemma {:induction false} KnownStaysKnown(trace: seq<Net>, steps: seq<AtomicStep>, cap: int, floor: int, id: string,
                                           i: nat, j: nat)
    requires IsAtomicRun(trace, steps, cap, floor) && 0 < floor <= cap && i <= j < |trace|
    requires id in trace[i].coord.reg.m && forall k :: i <= k < j ==> steps[k] != Only(Restart)
    ensures id in trace[j].coord.reg.m
    decreases j
  {
    if i < j {
      KnownStaysKnown(trace, steps, cap, floor, id, i, j - 1);
      KnownNext(trace, steps, cap, floor, id, j - 1);
    }
  }

  lemma KnownNext(trace: seq<Net>, steps: seq<AtomicStep>, cap: int, floor: int, id: string, i: nat)
    requires IsAtomicRun(trace, steps, cap, floor) && 0 < floor <= cap && i < |steps|
    requires id in trace[i].coord.reg.m && steps[i] != Only(Restart)
    ensures id in trace[i + 1].coord.reg.m
  {
    RunKeepsA(trace, steps, cap, floor, i);
    StaysKnown(trace[i], steps[i], id);
  }

  // ---------------------------------------------------------------------------------------------
  // From a handshake on
  // ---------------------------------------------------------------------------------------------

  /** The coordinator goes on reading the connection `conn`. */
  predicate StaysOn(a: AtomicStep, conn: ConnId) {
    a.Only? ==> KeepsConnection(a.step, conn)
  }

  ghost predicate PromisedTo(s: Net, id: string) {
    Promised(s.wire, id in s.coord.reg.m, id)
  }

  lemma PromisedAfterWrite(s: Net, s': Net, fr: DaemonFrame, id: string)
    requires SameBut(s, s', fr) && PromisedTo(s, id)
    ensures PromisedTo(s', id) && s'.conn == s.conn
  {
    PromisedAppended(s.wire, fr, id in s.coord.reg.m, id);
  }

  lemma PromisedAfterRead(s: Net, env: Env, id: string)
    requires InvA(s) && Enabled(s, Deliver(env)) && PromisedTo(s, id)
    ensures PromisedTo(Do(s, Deliver(env)), id) && Do(s, Deliver(env)).conn == s.conn
  {
    OneRead(s, env, id);
    ReadRest(s.wire, GateOf(s.coord.reg, id), id);
  }

  lemma PromiseKept(s: Net, a: AtomicStep, id: string)
    requires InvA(s) && EnabledA(s, a) && StaysOn(a, s.conn) && PromisedTo(s, id)
    ensures PromisedTo(DoA(s, a), id) && DoA(s, a).conn == s.conn
  {
    match a {
      case Emit(k, body, lost) =>
        EmitShape(s, k, body, lost);
        PromisedAfterWrite(s, DoA(s, a), Framed(k, Peek(s.mux, k) + 1, body), id);
      case EmitPlain(fr, lost) =>
        PlainShape(s, fr, lost);
        PromisedAfterWrite(s, DoA(s, a), fr, id);
      case Only(step) =>
        if step.Deliver? {
          PromisedAfterRead(s, step.env, id);
        } else {
          NoRead(s, step, id);
          assert Do(s, step).wire == s.wire;
        }
    }
  }

  lemma ConnectPromises(s: Net, machineID: string, ids: seq<string>, id: string)
    requires Enabled(s, Connect(machineID, ids)) && id in ids
    ensures PromisedTo(Do(s, Connect(machineID, ids)), id)
  {
    FirstResume(s.mux, ids, machineID, id);
  }

  /** Step `a` is a handshake that announces `id`, and its connection is kept up to step `i`. */
  ghost predicate OnHandshake(trace: seq<Net>, steps: seq<AtomicStep>, a: nat, i: nat, id: string) {
    && |trace| == |steps| + 1 && a < i < |trace|
    && steps[a].Only? && steps[a].step.Connect? && id in steps[a].step.ids
    && forall k :: a < k < i ==> StaysOn(steps[k], trace[a + 1].conn)
  }

  lemma {:induction false} PromisedOnHandshake(trace: seq<Net>, steps: seq<AtomicStep>, cap: int, floor: int,
                                               a: nat, i: nat, id: string)
    requires IsAtomicRun(trace, steps, cap, floor) && 0 < floor <= cap && OnHandshake(trace, steps, a, i, id)
    ensures PromisedTo(trace[i], id) && trace[i].conn == trace[a + 1].conn
    decreases i
  {
    if i == a + 1 {
      ConnectPromises(trace[a], steps[a].step.machineID, steps[a].step.ids, id);
    } else {
      PromisedOnHandshake(trace, steps, cap, floor, a, i - 1, id);
      RunKeepsA(trace, steps, cap, floor, i - 1);
      PromiseKept(trace[i - 1], steps[i - 1], id);
    }
  }

  lemma ArrivalIsKnown(s: Net, id: string)
    requires PromisedTo(s, id) && Arrives(s, id)
    ensures id in s.coord.reg.m
  {
    assert NumberFor(s.wire[0], id).Some? && !Announces(s.wire[0], id);
  }

  /**
   After each handshake that announces a session, every frame of the session that arrives on the
   connection is accepted, whatever was lost before it or is lost since: on every run from the start,
   until the session takes a number again after its end.
   */
  lemma EveryLaterFrameIsAccepted(trace: seq<Net>, steps: seq<AtomicStep>, cap: int, floor: int,
                                  a: nat, i: nat, id: string)
    requires IsAtomicRun(trace, steps, cap, floor) && 0 < floor <= cap && OnHandshake(trace, steps, a, i, id)
    requires i < |steps| && steps[i].Only? && steps[i].step.Deliver?
    requires Arrives(trace[i], id) && id !in trace[i].reused
    ensures Accepted(trace[i].coord.reg, trace[i + 1].coord.reg, id, trace[i].wire[0])
  {
    PromisedOnHandshake(trace, steps, cap, floor, a, i, id);
    ArrivalIsKnown(trace[i], id);
    NoFreshFrameIsRefused(trace, steps, cap, floor, id, i);
  }

  // ---------------------------------------------------------------------------------------------
  // Why the step has to be atomic
  // ---------------------------------------------------------------------------------------------

  /** Two producers take their numbers one after the other and write in the other order. */
  function Overtake(s: Net, id: string, b1: Body, b2: Body): Net
    requires s.held == [] && Peek(s.mux, id) + 2 < INT64_END
  {
    var s1 := Do(s, TakeNumber(id, b1));
    var s2 := Do(s1, TakeNumber(id, b2));
    Do(Do(s2, Write(1)), Write(0))
  }

  lemma OvertakeShape(s: Net, id: string, b1: Body, b2: Body)
    requires s.held == [] && s.wire == [] && s.up && s.reading && Peek(s.mux, id) + 2 < INT64_END
    ensures var t := Overtake(s, id, b1, b2);
            && t.wire == [Framed(id, Peek(s.mux, id) + 2, b2), Framed(id, Peek(s.mux, id) + 1, b1)]
            && t.held == [] && t.coord == s.coord && t.conn == s.conn && t.reading
  {
  }

  lemma OvertakeSound(s: Net, id: string, b1: Body, b2: Body)
    requires Sound(s) && s.held == [] && Peek(s.mux, id) + 2 < INT64_END
    ensures Sound(Overtake(s, id, b1, b2))
  {
    var s1 := Do(s, TakeNumber(id, b1));
    var s2 := Do(s1, TakeNumber(id, b2));
    StepSound(s, TakeNumber(id, b1));
    StepSound(s1, TakeNumber(id, b2));
    StepSound(s2, Write(1));
    StepSound(Do(s2, Write(1)), Write(0));
  }

  /** A numbered frame registers no session. */
  lemma TicketKeys(v: IngestVal, conn: ConnId, fr: DaemonFrame, env: Env)
    requires v.reg.floor >= 0 && Enumerates(env.order, v.reg.m.Keys) && Ticket(fr).Some?
    ensures Handle(v, conn, fr, env).0.reg.m.Keys == v.reg.m.Keys
  {
    match fr {
      case SessionEvent(k, n, _, ts, raw) => IngestShape(v.reg, k, n, EventEntry, ts, raw, env);
      case SessionPty(k, n, ts, raw) => IngestShape(v.reg, k, n, PtyEntry, ts, raw, env);
      case _ =>
    }
  }

  /** Two frames of a known session on the wire, the second with a lower number than the first. */
  ghost predicate ReadsBoth(t0: Net, env1: Env, env2: Env, id: string)
    requires Enabled(t0, Deliver(env1)) && |t0.wire| == 2
  {
    var t1 := Do(t0, Deliver(env1));
    && Accepted(t0.coord.reg, t1.coord.reg, id, t0.wire[0])
    && t1.wire == [t0.wire[1]] && Enabled(t1, Deliver(env2))
    && Refused(t1.coord.reg, Do(t1, Deliver(env2)).coord.reg, id)
  }

  lemma ReadTwo(t0: Net, env1: Env, env2: Env, id: string, n1: int64, n2: int64)
    requires Sound(t0) && Enabled(t0, Deliver(env1)) && |t0.wire| == 2
    requires Took(t0.wire[0], id, n2) && Took(t0.wire[1], id, n1) && n1 <= n2
    requires GateOf(t0.coord.reg, id).known && n2 > GateOf(t0.coord.reg, id).last
    requires Enumerates(env2.order, t0.coord.reg.m.Keys)
    ensures ReadsBoth(t0, env1, env2, id)
  {
    ReadFirst(t0, env1, id, n2);
    ReadSecond(Do(t0, Deliver(env1)), env2, id, n1);
  }

  lemma ReadFirst(t0: Net, env: Env, id: string, n: int64)
    requires Sound(t0) && Enabled(t0, Deliver(env)) && |t0.wire| == 2 && Took(t0.wire[0], id, n)
    requires GateOf(t0.coord.reg, id).known && n > GateOf(t0.coord.reg, id).last
    ensures var t1 := Do(t0, Deliver(env));
            && Accepted(t0.coord.reg, t1.coord.reg, id, t0.wire[0])
            && Sound(t1) && t1.reading && t1.wire == [t0.wire[1]]
            && t1.coord.reg.m.Keys == t0.coord.reg.m.Keys && GateOf(t1.coord.reg, id) == Gate(true, n)
  {
    ReadAhead(t0, env, id, n);
    LastOfTwo(t0.wire);
    TicketKeys(t0.coord, t0.conn, t0.wire[0], env);
    StepSound(t0, Deliver(env));
  }

  lemma LastOfTwo(wire: seq<DaemonFrame>)
    requires |wire| == 2
    ensures wire[1..] == [wire[1]]
  {
  }

  lemma ReadAhead(s: Net, env: Env, id: string, n: int64)
    requires Inv(s) && Gated(s) && Enabled(s, Deliver(env)) && Took(s.wire[0], id, n)
    requires GateOf(s.coord.reg, id).known && n > GateOf(s.coord.reg, id).last
    ensures Accepted(s.coord.reg, Do(s, Deliver(env)).coord.reg, id, s.wire[0])
    ensures GateOf(Do(s, Deliver(env)).coord.reg, id) == Gate(true, n)
  {
    DecideHere(s, env, id, n);
  }

  lemma ReadSecond(t1: Net, env: Env, id: string, n: int64)
    requires Sound(t1) && t1.reading && |t1.wire| == 1 && Took(t1.wire[0], id, n) && n <= GateOf(t1.coord.reg, id).last
    requires Enumerates(env.order, t1.coord.reg.m.Keys)
    ensures Enabled(t1, Deliver(env)) && Refused(t1.coord.reg, Do(t1, Deliver(env)).coord.reg, id)
  {
    DecideHere(t1, env, id, n);
  }

  /** Two frames of `id` on the wire in the wrong order, everything before them read. */
  ghost predicate Swapped(t: Net, reg: RegVal, id: string, n: nat, b1: Body, b2: Body) {
    && Sound(t) && t.reading && t.coord.reg == reg && n + 2 < INT64_END
    && t.wire == [Framed(id, n + 2, b2), Framed(id, n + 1, b1)]
  }

  lemma OvertakeSwaps(s: Net, id: string, b1: Body, b2: Body)
    requires Sound(s) && s.held == [] && s.wire == [] && s.up && s.reading && Peek(s.mux, id) + 2 < INT64_END
    ensures Swapped(Overtake(s, id, b1, b2), s.coord.reg, id, Peek(s.mux, id), b1, b2)
  {
    OvertakeShape(s, id, b1, b2);
    OvertakeSound(s, id, b1, b2);
  }

  lemma SwappedTook(t: Net, reg: RegVal, id: string, n: nat, b1: Body, b2: Body, env: Env)
    requires Swapped(t, reg, id, n, b1, b2) && Enumerates(env.order, reg.m.Keys)
    ensures |t.wire| == 2 && Took(t.wire[0], id, n + 2) && Took(t.wire[1], id, n + 1) && Enabled(t, Deliver(env))
  {
    FramedTicket(id, n + 2, b2, id);
    FramedTicket(id, n + 1, b1, id);
  }

  lemma ReadSwapped(t: Net, reg: RegVal, env1: Env, env2: Env, id: string, n: nat, b1: Body, b2: Body)
    requires Swapped(t, reg, id, n, b1, b2) && GateOf(reg, id) == Gate(true, n)
    requires Enumerates(env1.order, reg.m.Keys) && Enumerates(env2.order, reg.m.Keys)
    ensures t.wire == [Framed(id, n + 2, b2), Framed(id, n + 1, b1)]
    ensures Enabled(t, Deliver(env1)) && ReadsBoth(t, env1, env2, id)
  {
    SwappedTook(t, reg, id, n, b1, b2, env1);
    ReadTwo(t, env1, env2, id, n + 1, n + 2);
  }

  /**
   With the two steps apart a frame can be overtaken: on an idle link that was in sync, the frame
   with the lower number arrives second; both are read, and the second one changes neither number
   nor history.
   */
  lemma OvertakenFrameIsRefused(s: Net, id: string, b1: Body, b2: Body, env1: Env, env2: Env)
    requires Sound(s) && s.held == [] && s.wire == [] && s.up && s.reading && Peek(s.mux, id) + 2 < INT64_END
    requires GateOf(s.coord.reg, id) == Gate(true, Peek(s.mux, id))
    requires Enumerates(env1.order, s.coord.reg.m.Keys) && Enumerates(env2.order, s.coord.reg.m.Keys)
    ensures var t := Overtake(s, id, b1, b2);
            && t.wire == [Framed(id, Peek(s.mux, id) + 2, b2), Framed(id, Peek(s.mux, id) + 1, b1)]
            && Enabled(t, Deliver(env1)) && ReadsBoth(t, env1, env2, id)
  {
    OvertakeSwaps(s, id, b1, b2);
    ReadSwapped(Overtake(s, id, b1, b2), s.coord.reg, env1, env2, id, Peek(s.mux, id), b1, b2);
  }
}
