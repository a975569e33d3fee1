/**
 The daemon's session registry as a value, with the trace of callbacks it fires, one function per
 operation. Times are absent (Go's zero time) or a number of milliseconds.
 */
module DaemonSpec {
  import opened Base

  type Time = Option<int>

  datatype Sess = Sess(pid: int, state: Status, heartbeat: Time, endedAt: Time)

  datatype EndedKind = EndedExplicit | EndedImplicit

  datatype Callback =
    | OnRegister(id: string)
    | OnHeartbeat(id: string, ts: int)
    | OnStateChange(id: string, from: Status, to: Status)
    | OnEvent(id: string, raw: seq<byte>)
    | OnEnded(id: string, kind: EndedKind, reason: string, endedAt: Time)

  datatype Reg = Reg(sessions: map<string, Sess>, ended: set<string>, trace: seq<Callback>)

  function Fire(v: Reg, c: Callback): Reg {
    v.(trace := v.trace + [c])
  }

  function Stamped(s: Sess, now: int): Sess {
    if s.heartbeat.None? then s.(heartbeat := Some(now)) else s
  }

  predicate Accepts(v: Reg, id: string, s: Sess) {
    id in v.sessions ==> v.sessions[id].pid == s.pid
  }

  function Register(v: Reg, id: string, s: Sess, now: int): Reg {
    if !Accepts(v, id, s) then v
    else
      var v' := v.(sessions := v.sessions[id := Stamped(s, now)]);
      if id in v.sessions then v' else Fire(v', OnRegister(id))
  }

  function UpdateHeartbeat(v: Reg, id: string, ts: int): Reg {
    if id !in v.sessions then v
    else
      var s := v.sessions[id].(heartbeat := Some(ts));
      if s.state != Unresponsive then Fire(v.(sessions := v.sessions[id := s]), OnHeartbeat(id, ts))
      else Fire(Fire(v.(sessions := v.sessions[id := s.(state := Running)]), OnStateChange(id, Unresponsive, Running)),
                OnHeartbeat(id, ts))
  }

  /** Both terminal calls report an end once per id, as long as the registry lives. */
  predicate Ends(v: Reg, id: string) {
    id in v.sessions && id !in v.ended
  }

  function RemoveWithReason(v: Reg, id: string, reason: string, now: int): Reg {
    var v' := v.(sessions := v.sessions - {id});
    if Ends(v, id) then Fire(v'.(ended := v.ended + {id}), OnEnded(id, EndedExplicit, reason, Some(now))) else v'
  }

  function MarkEnded(v: Reg, id: string, now: int): Reg {
    if !Ends(v, id) then v
    else Fire(v.(sessions := v.sessions[id := v.sessions[id].(state := Ended, endedAt := Some(now))],
                 ended := v.ended + {id}),
              OnEnded(id, EndedImplicit, "", Some(now)))
  }

  /** A session without a heartbeat is silent for the longest time there is. */
  predicate Flips(s: Sess, now: int, timeout: int) {
    (s.state == Running || s.state == Idle) && (s.heartbeat.None? || now - s.heartbeat.value > timeout)
  }

  function SweepOne(v: Reg, id: string, now: int, timeout: int): Reg {
    if id in v.sessions && Flips(v.sessions[id], now, timeout)
    then Fire(v.(sessions := v.sessions[id := v.sessions[id].(state := Unresponsive)]),
              OnStateChange(id, v.sessions[id].state, Unresponsive))
    else v
  }

  /** The sweep over the sessions in `order`, the iteration order of the map. */
  function Sweep(v: Reg, order: seq<string>, now: int, timeout: int): Reg {
    if order == [] then v
    else SweepOne(Sweep(v, order[..|order| - 1], now, timeout), order[|order| - 1], now, timeout)
  }

  function Flipped(v: Reg, order: seq<string>, now: int, timeout: int): seq<string> {
    if order == [] then []
    else
      var n := |order| - 1;
      Flipped(v, order[..n], now, timeout) +
      if order[n] in v.sessions && Flips(v.sessions[order[n]], now, timeout) then [order[n]] else []
  }

  predicate Reapable(s: Sess, now: int, ttl: int) {
    s.state == Ended && s.endedAt.Some? && now - s.endedAt.value > ttl
  }

  function Reap(v: Reg, now: int, ttl: int): Reg {
    v.(sessions := map id | id in v.sessions && !Reapable(v.sessions[id], now, ttl) :: v.sessions[id])
  }

  function Event(v: Reg, id: string, raw: seq<byte>): Reg {
    Fire(v, OnEvent(id, raw))
  }

  function LiveIds(v: Reg): set<string> {
    set id | id in v.sessions && v.sessions[id].state != Ended
  }

  // ---------------------------------------------------------------------------------------------
  // Runs
  // ---------------------------------------------------------------------------------------------

  datatype Op =
    | DoRegister(id: string, s: Sess, now: int)
    | DoHeartbeat(id: string, ts: int)
    | DoEvent(id: string, raw: seq<byte>)
    | DoRemove(id: string, reason: string, now: int)
    | DoMarkEnded(id: string, now: int)
    | DoSweep(order: seq<string>, now: int, timeout: int)
    | DoReap(now: int, ttl: int)

  function Apply(v: Reg, op: Op): Reg {
    match op
    case DoRegister(id, s, now) => Register(v, id, s, now)
    case DoHeartbeat(id, ts) => UpdateHeartbeat(v, id, ts)
    case DoEvent(id, raw) => Event(v, id, raw)
    case DoRemove(id, reason, now) => RemoveWithReason(v, id, reason, now)
    case DoMarkEnded(id, now) => MarkEnded(v, id, now)
    case DoSweep(order, now, timeout) => Sweep(v, order, now, timeout)
    case DoReap(now, ttl) => Reap(v, now, ttl)
  }

  function Run(v: Reg, ops: seq<Op>): Reg
    decreases |ops|
  {
    if ops == [] then v else Run(Apply(v, ops[0]), ops[1..])
  }

  function NewReg(): Reg {
    Reg(map[], {}, [])
  }

  /** The ids for which a session already in state ended was registered. */
  function RegisteredEnded(ops: seq<Op>): set<string> {
    set op | op in ops && op.DoRegister? && op.s.state == Ended :: op.id
  }

  // ---------------------------------------------------------------------------------------------
  // The end callback over every run
  // ---------------------------------------------------------------------------------------------

  ghost predicate Registered(trace: seq<Callback>, id: string, before: int) {
    exists i :: 0 <= i < before && i < |trace| && trace[i] == OnRegister(id)
  }

  /** At most one end per id, each after a registration of that id and with its time stamped. */
  ghost predicate EndsInOrder(trace: seq<Callback>) {
    && (forall i, j :: 0 <= i < j < |trace| && trace[i].OnEnded? && trace[j].OnEnded? ==> trace[i].id != trace[j].id)
    && (forall j :: 0 <= j < |trace| && trace[j].OnEnded? ==>
          trace[j].endedAt.Some? && Registered(trace, trace[j].id, j))
  }

  ghost predicate EndReported(v: Reg, id: string) {
    exists j :: 0 <= j < |v.trace| && v.trace[j].OnEnded? && v.trace[j].id == id
  }

  /** `pre` are ids for which a session already in state ended may have been registered. */
  ghost predicate Inv(v: Reg, pre: set<string>) {
    && EndsInOrder(v.trace)
    && (forall id :: id in v.ended <==> EndReported(v, id))
    && (forall id :: id in v.sessions ==> Registered(v.trace, id, |v.trace|))
    && (forall id :: id in v.sessions && v.sessions[id].state == Ended ==> id in v.ended || id in pre)
  }

  lemma FireKeeps(v: Reg, c: Callback)
    requires EndsInOrder(v.trace) && !c.OnEnded?
    ensures EndsInOrder(Fire(v, c).trace)
    ensures forall id :: EndReported(Fire(v, c), id) <==> EndReported(v, id)
    ensures forall id :: Registered(v.trace, id, |v.trace|) ==> Registered(Fire(v, c).trace, id, |v.trace| + 1)
  {
    var t, t' := v.trace, Fire(v, c).trace;
    assert forall j :: 0 <= j < |t| ==> t'[j] == t[j];
    forall j | 0 <= j < |t'| && t'[j].OnEnded? ensures Registered(t', t'[j].id, j) {
      var i :| 0 <= i < j && t[i] == OnRegister(t[j].id);
      assert t'[i] == OnRegister(t'[j].id);
    }
    forall id ensures EndReported(Fire(v, c), id) <==> EndReported(v, id) {
      if j :| 0 <= j < |t| && t[j].OnEnded? && t[j].id == id { assert t'[j] == t[j]; }
    }
    forall id | Registered(t, id, |t|) ensures Registered(t', id, |t'|) {
      var i :| 0 <= i < |t| && t[i] == OnRegister(id);
      assert t'[i] == OnRegister(id);
    }
  }

  lemma EndKeeps(v: Reg, c: Callback)
    requires EndsInOrder(v.trace) && c.OnEnded? && c.endedAt.Some?
    requires Registered(v.trace, c.id, |v.trace|) && !EndReported(v, c.id)
    ensures EndsInOrder(Fire(v, c).trace)
    ensures forall id :: EndReported(Fire(v, c), id) <==> id == c.id || EndReported(v, id)
    ensures forall id :: Registered(v.trace, id, |v.trace|) ==> Registered(Fire(v, c).trace, id, |v.trace| + 1)
  {
    var t, t' := v.trace, Fire(v, c).trace;
    assert forall j :: 0 <= j < |t| ==> t'[j] == t[j];
    forall j | 0 <= j < |t'| && t'[j].OnEnded? ensures Registered(t', t'[j].id, j) {
      var i :| 0 <= i < j && t[i] == OnRegister(t'[j].id);
      assert t'[i] == OnRegister(t'[j].id);
    }
    forall id ensures EndReported(Fire(v, c), id) <==> id == c.id || EndReported(v, id) {
      assert t'[|t|] == c;
      if j :| 0 <= j < |t| && t[j].OnEnded? && t[j].id == id { assert t'[j] == t[j]; }
    }
    forall id | Registered(t, id, |t|) ensures Registered(t', id, |t'|) {
      var i :| 0 <= i < |t| && t[i] == OnRegister(id);
      assert t'[i] == OnRegister(id);
    }
  }

  /** Callbacks that are not ends, and changes that make no session ended, keep the invariant. */
  lemma FireInv(v: Reg, sessions: map<string, Sess>, c: Callback, pre: set<string>)
    requires Inv(v, pre) && !c.OnEnded?
    requires forall id :: id in sessions ==> id in v.sessions || c == OnRegister(id)
    requires forall id :: id in sessions && sessions[id].state == Ended ==>
      id in pre || (id in v.sessions && v.sessions[id].state == Ended)
    ensures Inv(Fire(v.(sessions := sessions), c), pre)
  {
    FireKeeps(v, c);
    var v' := Fire(v.(sessions := sessions), c);
    assert v'.trace == Fire(v, c).trace && v'.trace[|v.trace|] == c;
    ReportedByTrace(v', Fire(v, c));
  }

  lemma ReportedByTrace(a: Reg, b: Reg)
    requires a.trace == b.trace
    ensures forall id :: EndReported(a, id) <==> EndReported(b, id)
  {
  }

  lemma SilentInv(v: Reg, sessions: map<string, Sess>, pre: set<string>)
    requires Inv(v, pre)
    requires forall id :: id in sessions ==> id in v.sessions
    requires forall id :: id in sessions && sessions[id].state == Ended ==> id in pre || v.sessions[id].state == Ended
    ensures Inv(v.(sessions := sessions), pre)
  {
    ReportedByTrace(v.(sessions := sessions), v);
  }

  lemma EndInv(v: Reg, sessions: map<string, Sess>, c: Callback, pre: set<string>)
    requires Inv(v, pre) && c.OnEnded? && c.endedAt.Some? && Ends(v, c.id)
    requires forall id :: id in sessions ==> id in v.sessions
    requires forall id :: id in sessions && id != c.id && sessions[id].state == Ended ==> v.sessions[id].state == Ended
    ensures Inv(Fire(v.(sessions := sessions, ended := v.ended + {c.id}), c), pre)
  {
    EndKeeps(v, c);
    ReportedByTrace(Fire(v.(sessions := sessions, ended := v.ended + {c.id}), c), Fire(v, c));
  }

  lemma RegisterKeeps(v: Reg, id: string, s: Sess, now: int, pre: set<string>)
    requires Inv(v, pre) && (s.state == Ended ==> id in pre)
    ensures Inv(Register(v, id, s, now), pre)
  {
    if Accepts(v, id, s) {
      var sessions := v.sessions[id := Stamped(s, now)];
      if id in v.sessions { SilentInv(v, sessions, pre); } else { FireInv(v, sessions, OnRegister(id), pre); }
    }
  }

  lemma HeartbeatKeeps(v: Reg, id: string, ts: int, pre: set<string>)
    requires Inv(v, pre)
    ensures Inv(UpdateHeartbeat(v, id, ts), pre)
  {
    if id in v.sessions {
      var s := v.sessions[id].(heartbeat := Some(ts));
      if s.state != Unresponsive {
        FireInv(v, v.sessions[id := s], OnHeartbeat(id, ts), pre);
      } else {
        var sessions := v.sessions[id := s.(state := Running)];
        FireInv(v, sessions, OnStateChange(id, Unresponsive, Running), pre);
        FireInv(Fire(v.(sessions := sessions), OnStateChange(id, Unresponsive, Running)), sessions,
                OnHeartbeat(id, ts), pre);
      }
    }
  }

  lemma {:induction false} SweepKeeps(v: Reg, order: seq<string>, now: int, timeout: int, pre: set<string>)
    requires Inv(v, pre)
    ensures Inv(Sweep(v, order, now, timeout), pre)
    decreases |order|
  {
    if order != [] {
      var w, id := Sweep(v, order[..|order| - 1], now, timeout), order[|order| - 1];
      SweepKeeps(v, order[..|order| - 1], now, timeout, pre);
      if id in w.sessions && Flips(w.sessions[id], now, timeout) {
        FireInv(w, w.sessions[id := w.sessions[id].(state := Unresponsive)],
                OnStateChange(id, w.sessions[id].state, Unresponsive), pre);
      }
    }
  }

  lemma TerminalKeeps(v: Reg, id: string, reason: string, now: int, pre: set<string>)
    requires Inv(v, pre)
    ensures Inv(RemoveWithReason(v, id, reason, now), pre) && Inv(MarkEnded(v, id, now), pre)
  {
    if Ends(v, id) {
      EndInv(v, v.sessions - {id}, OnEnded(id, EndedExplicit, reason, Some(now)), pre);
      EndInv(v, v.sessions[id := v.sessions[id].(state := Ended, endedAt := Some(now))],
             OnEnded(id, EndedImplicit, "", Some(now)), pre);
    } else {
      SilentInv(v, v.sessions - {id}, pre);
    }
  }

  lemma OpKeeps(v: Reg, op: Op, pre: set<string>)
    requires Inv(v, pre) && (op.DoRegister? && op.s.state == Ended ==> op.id in pre)
    ensures Inv(Apply(v, op), pre)
  {
    match op {
      case DoRegister(id, s, now) => RegisterKeeps(v, id, s, now, pre);
      case DoHeartbeat(id, ts) => HeartbeatKeeps(v, id, ts, pre);
      case DoEvent(id, raw) => FireInv(v, v.sessions, OnEvent(id, raw), pre);
      case DoRemove(id, reason, now) => TerminalKeeps(v, id, reason, now, pre);
      case DoMarkEnded(id, now) => TerminalKeeps(v, id, "", now, pre);
      case DoSweep(order, now, timeout) => SweepKeeps(v, order, now, timeout, pre);
      case DoReap(now, ttl) => SilentInv(v, Reap(v, now, ttl).sessions, pre);
    }
  }

  lemma {:induction false} RunInv(v: Reg, ops: seq<Op>, pre: set<string>)
    requires Inv(v, pre) && RegisteredEnded(ops) <= pre
    ensures Inv(Run(v, ops), pre)
    decreases |ops|
  {
    if ops != [] {
      assert ops[0] in ops;
      assert RegisteredEnded(ops[1..]) <= RegisteredEnded(ops);
      OpKeeps(v, ops[0], pre);
      RunInv(Apply(v, ops[0]), ops[1..], pre);
    }
  }

  /**
   Over every run of a new registry: at most one end callback per session id, each after a
   registration of that id and with the time of the end; an id counts as ended exactly when its end
   has been reported; and every entry in state ended has been reported or was registered so.
   */
  lemma EndCallbacks(ops: seq<Op>)
    ensures Inv(Run(NewReg(), ops), RegisteredEnded(ops))
  {
    RunInv(NewReg(), ops, RegisteredEnded(ops));
  }

  /** Reaping forgets exactly the entries that ended longer than `ttl` ago; their ends had been
      reported, but for sessions registered as ended with a time of their own. */
  lemma ReapOnlyRecordedEnds(ops: seq<Op>, now: int, ttl: int, id: string)
    requires id in Run(NewReg(), ops).sessions
    ensures var v := Run(NewReg(), ops);
            && (id !in Reap(v, now, ttl).sessions ==> EndReported(v, id) || id in RegisteredEnded(ops))
            && (id !in Reap(v, now, ttl).sessions <==>
                  && v.sessions[id].state == Ended && v.sessions[id].endedAt.Some?
                  && v.sessions[id].endedAt.value + ttl < now)
  {
    EndCallbacks(ops);
  }

  /** The step from `v` to `w` reports the end of `id`. */
  ghost predicate ReportsEnd(v: Reg, w: Reg, id: string) {
    |w.trace| == |v.trace| + 1 && w.trace[|v.trace|].OnEnded? && w.trace[|v.trace|].id == id
  }

  /**
   Exactly which endings are reported: after any run, ending a registered session, in either way,
   fires the end callback if and only if no end of its id has been reported before; otherwise the
   trace stays as it is.
   */
  lemma EndReportedExactly(ops: seq<Op>, id: string, reason: string, now: int)
    requires id in Run(NewReg(), ops).sessions
    ensures var v := Run(NewReg(), ops);
            var removed, marked := RemoveWithReason(v, id, reason, now), MarkEnded(v, id, now);
            && (ReportsEnd(v, removed, id) <==> !EndReported(v, id))
            && (EndReported(v, id) ==> removed.trace == v.trace)
            && (ReportsEnd(v, marked, id) <==> !EndReported(v, id)) && (EndReported(v, id) ==> marked == v)
  {
    EndCallbacks(ops);
  }

  /** A session that ends, is reaped, registers again and ends again. */
  function TwoLives(id: string, s: Sess): seq<Op> {
    [DoRegister(id, s, 0), DoMarkEnded(id, 1), DoReap(3, 1), DoRegister(id, s, 4), DoMarkEnded(id, 5)]
  }

  /** It is registered twice and its end reported once; it even stays live after its second end. */
  lemma SecondEndIsLost(id: string, s: Sess)
    requires s.state == Running
    ensures var v := Run(NewReg(), TwoLives(id, s));
            && v.trace == [OnRegister(id), OnEnded(id, EndedImplicit, "", Some(1)), OnRegister(id)]
            && id in LiveIds(v)
  {
    var ops := TwoLives(id, s);
    var v1 := Register(NewReg(), id, s, 0);
    var v2 := MarkEnded(v1, id, 1);
    var v3 := Reap(v2, 3, 1);
    var v4 := Register(v3, id, s, 4);
    RunFive(NewReg(), ops);
    assert id !in v3.sessions;
    assert MarkEnded(v4, id, 5) == v4;
    assert Run(NewReg(), ops) == v4;
  }

  lemma RunFive(v: Reg, ops: seq<Op>)
    requires |ops| == 5
    ensures Run(v, ops) == Apply(Apply(Apply(Apply(Apply(v, ops[0]), ops[1]), ops[2]), ops[3]), ops[4])
  {
    var w := Apply(Apply(v, ops[0]), ops[1]);
    assert ops[1..][1..] == ops[2..];
    assert Run(v, ops) == Run(w, ops[2..]);
    assert ops[2..][1..] == ops[3..] && ops[3..][1..] == ops[4..];
    var x := Apply(Apply(w, ops[2]), ops[3]);
    assert Run(w, ops[2..]) == Run(x, ops[4..]);
    assert ops[4..] == [ops[4]] && [ops[4]][1..] == [];
    assert Run(x, [ops[4]]) == Run(Apply(x, ops[4]), []);
  }

  /**
   An id that has ended is never reported as ended again, whatever is done: a session that
   registers under it later loses its end callback, and stays live when its socket closes.
   */
  lemma {:induction false} SecondLifeIsNotReported(v: Reg, ops: seq<Op>, id: string)
    requires id in v.ended
    ensures id in Run(v, ops).ended && |v.trace| <= |Run(v, ops).trace|
    ensures forall j :: |v.trace| <= j < |Run(v, ops).trace| && Run(v, ops).trace[j].OnEnded? ==>
            Run(v, ops).trace[j].id != id
    ensures forall now :: MarkEnded(v, id, now) == v
    decreases |ops|
  {
    if ops != [] {
      var w := Apply(v, ops[0]);
      OpAppends(v, ops[0], id);
      SecondLifeIsNotReported(w, ops[1..], id);
      RunExtends(w, ops[1..]);
      forall j | |v.trace| <= j < |Run(w, ops[1..]).trace| && Run(w, ops[1..]).trace[j].OnEnded?
        ensures Run(w, ops[1..]).trace[j].id != id
      {
        if j < |w.trace| { assert Run(w, ops[1..]).trace[j] == w.trace[j]; }
      }
    }
  }

  ghost predicate Extends(a: seq<Callback>, b: seq<Callback>) {
    |a| <= |b| && forall j :: 0 <= j < |a| ==> b[j] == a[j]
  }

  /** An operation only appends to the trace, and no second end of an ended id. */
  lemma OpAppends(v: Reg, op: Op, id: string)
    ensures Extends(v.trace, Apply(v, op).trace) && v.ended <= Apply(v, op).ended
    ensures id in v.ended ==>
      forall j :: |v.trace| <= j < |Apply(v, op).trace| && Apply(v, op).trace[j].OnEnded? ==>
          Apply(v, op).trace[j].id != id
  {
    if op.DoSweep? { SweepAppends(v, op.order, op.now, op.timeout); }
  }

  lemma {:induction false} SweepAppends(v: Reg, order: seq<string>, now: int, timeout: int)
    ensures var w := Sweep(v, order, now, timeout);
            && Extends(v.trace, w.trace) && w.ended == v.ended
            && forall j :: |v.trace| <= j < |w.trace| ==> w.trace[j].OnStateChange?
    decreases |order|
  {
    if order != [] { SweepAppends(v, order[..|order| - 1], now, timeout); }
  }

  lemma {:induction false} RunExtends(v: Reg, ops: seq<Op>)
    ensures Extends(v.trace, Run(v, ops).trace)
    decreases |ops|
  {
    if ops != [] {
      OpAppends(v, ops[0], "");
      RunExtends(Apply(v, ops[0]), ops[1..]);
    }
  }

  // ---------------------------------------------------------------------------------------------
  // The heartbeat sweep
  // ---------------------------------------------------------------------------------------------

  /** What a sweep over `order` made of `v`, and the ids it reports as flipped. */
  ghost predicate Swept(v: Reg, order: seq<string>, now: int, timeout: int, w: Reg, flipped: seq<string>) {
    && w.sessions.Keys == v.sessions.Keys && w.ended == v.ended
    && (forall id :: id in v.sessions ==>
          w.sessions[id] == if id in order && Flips(v.sessions[id], now, timeout)
                            then v.sessions[id].(state := Unresponsive) else v.sessions[id])
    && (forall id :: id in flipped <==> id in order && id in v.sessions && Flips(v.sessions[id], now, timeout))
    && |w.trace| == |v.trace| + |flipped| && w.trace[..|v.trace|] == v.trace
    && (forall i :: 0 <= i < |flipped| ==>
          && flipped[i] in v.sessions
          && w.trace[|v.trace| + i] == OnStateChange(flipped[i], v.sessions[flipped[i]].state, Unresponsive))
  }

  lemma SweptNext(v: Reg, order: seq<string>, id: string, now: int, timeout: int, w: Reg, flipped: seq<string>)
    requires Swept(v, order, now, timeout, w, flipped) && id !in order
    ensures Swept(v, order + [id], now, timeout, SweepOne(w, id, now, timeout),
                  flipped + if id in v.sessions && Flips(v.sessions[id], now, timeout) then [id] else [])
  {
    assert flipped + [] == flipped;
  }

  /**
   A sweep over any listing of the sessions flips exactly the running and idle ones that were
   silent too long, changes nothing else, and announces each flip once, from its former state.
   */
  lemma {:induction false} SweepFlipsExactly(v: Reg, order: seq<string>, now: int, timeout: int)
    requires forall i, j :: 0 <= i < j < |order| ==> order[i] != order[j]
    ensures Swept(v, order, now, timeout, Sweep(v, order, now, timeout), Flipped(v, order, now, timeout))
    decreases |order|
  {
    if order != [] {
      var before, id := order[..|order| - 1], order[|order| - 1];
      SweepFlipsExactly(v, before, now, timeout);
      SweptNext(v, before, id, now, timeout, Sweep(v, before, now, timeout), Flipped(v, before, now, timeout));
      assert order == before + [id];
    }
  }

  /** One more session looked at. Each is judged by the value it had before the sweep. */
  lemma SweepSnoc(v: Reg, order: seq<string>, id: string, now: int, timeout: int)
    requires forall i, j :: 0 <= i < j < |order| ==> order[i] != order[j]
    requires id !in order && id in v.sessions
    ensures Sweep(v, order + [id], now, timeout) == SweepOne(Sweep(v, order, now, timeout), id, now, timeout)
    ensures id in Sweep(v, order, now, timeout).sessions
    ensures Flipped(v, order + [id], now, timeout) == Flipped(v, order, now, timeout) +
            if Flips(Sweep(v, order, now, timeout).sessions[id], now, timeout) then [id] else []
  {
    assert (order + [id])[..|order|] == order;
    SweepFlipsExactly(v, order, now, timeout);
  }
}
