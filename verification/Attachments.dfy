/**
 All client connections together, in any interleaving. Session objects are told apart from the ids
 they are registered under, since an id may be registered anew while clients hold the old object.
 */
module Attachments {
  import opened Base

  type Obj = nat

  /** Where a connection stands within an attach frame. */
  datatype Phase = Ready | Found(target: Obj) | Left(target: Obj)

  datatype Conn = Conn(attached: Option<Obj>, phase: Phase, open: bool)

  datatype Hub = Hub(
    names: seq<string>,                 // the session id of every object ever registered
    registered: map<string, Obj>,
    clients: map<Obj, set<string>>,     // AttachedClients of every object
    conns: map<string, Conn>)

  datatype Step =
    | Register(id: string)
    | Open(c: string)
    | Look(c: string, id: string)       // attach: look the session up
    | Leave(c: string)                  // attach: leave the old session
    | Join(c: string)                   // attach: AttachWithReplay on the new one
    | Detach(c: string, id: string)
    | Close(c: string)

  predicate Enabled(h: Hub, step: Step) {
    match step
    case Register(_) => true
    case Open(c) => c !in h.conns
    case Look(c, _) => c in h.conns && h.conns[c].open && h.conns[c].phase.Ready?
    case Leave(c) => c in h.conns && h.conns[c].phase.Found?
    case Join(c) => c in h.conns && h.conns[c].phase.Left? && h.conns[c].phase.target in h.clients
    case Detach(c, _) => c in h.conns && h.conns[c].open && h.conns[c].phase.Ready?
    case Close(c) => c in h.conns && h.conns[c].open && h.conns[c].phase.Ready?
  }

  function Without(clients: map<Obj, set<string>>, o: Option<Obj>, c: string): map<Obj, set<string>> {
    if o.Some? && o.value in clients then clients[o.value := clients[o.value] - {c}] else clients
  }

  function LeaveNow(h: Hub, c: string): Hub
    requires c in h.conns
  {
    h.(clients := Without(h.clients, h.conns[c].attached, c), conns := h.conns[c := h.conns[c].(attached := None)])
  }

  function SetPhase(h: Hub, c: string, p: Phase): Hub
    requires c in h.conns
  {
    h.(conns := h.conns[c := h.conns[c].(phase := p)])
  }

  function Do(h: Hub, step: Step): Hub
    requires Enabled(h, step)
  {
    match step
    case Register(id) =>
      h.(names := h.names + [id], registered := h.registered[id := |h.names|], clients := h.clients[|h.names| := {}])
    case Open(c) => h.(conns := h.conns[c := Conn(None, Ready, true)])
    case Look(c, id) => if id in h.registered then SetPhase(h, c, Found(h.registered[id])) else h
    case Leave(c) => SetPhase(LeaveNow(h, c), c, Left(h.conns[c].phase.target))
    case Join(c) =>
      var o := h.conns[c].phase.target;
      h.(clients := h.clients[o := h.clients[o] + {c}], conns := h.conns[c := Conn(Some(o), Ready, h.conns[c].open)])
    case Detach(c, id) =>
      var o := h.conns[c].attached;
      if o.Some? && o.value < |h.names| && h.names[o.value] == id then LeaveNow(h, c) else h
    case Close(c) =>
      var h1 := LeaveNow(h, c);
      h1.(conns := h1.conns[c := h1.conns[c].(open := false)])
  }

  ghost predicate IsRun(trace: seq<Hub>, steps: seq<Step>) {
    && |trace| == |steps| + 1 && trace[0] == Hub([], map[], map[], map[])
    && forall i :: 0 <= i < |steps| ==> Enabled(trace[i], steps[i]) && trace[i + 1] == Do(trace[i], steps[i])
  }

  /** The objects are numbered in order, and everything refers to one of them. */
  ghost predicate ObjectsExist(h: Hub) {
    && (forall o: nat :: o in h.clients <==> o < |h.names|)
    && (forall id :: id in h.registered ==> h.registered[id] < |h.names|)
    && (forall c :: c in h.conns ==> h.conns[c].attached.Some? ==> h.conns[c].attached.value < |h.names|)
    && (forall c :: c in h.conns && !h.conns[c].phase.Ready? ==> h.conns[c].phase.target < |h.names|)
  }

  /** A connection is among an object's clients exactly when it is attached to that object. */
  ghost predicate Mirrored(h: Hub) {
    && (forall c, o :: o in h.clients && c in h.conns ==> (c in h.clients[o] <==> h.conns[c].attached == Some(o)))
    && (forall c, o :: o in h.clients && c in h.clients[o] ==> c in h.conns)
    && (forall c :: c in h.conns && !h.conns[c].open ==> h.conns[c].attached.None? && h.conns[c].phase.Ready?)
    && (forall c :: c in h.conns && h.conns[c].phase.Left? ==> h.conns[c].attached.None?)
  }

  lemma LeaveKeeps(h: Hub, c: string)
    requires ObjectsExist(h) && Mirrored(h) && c in h.conns
    ensures ObjectsExist(LeaveNow(h, c)) && Mirrored(LeaveNow(h, c))
  {
  }

  lemma JoinKeeps(h: Hub, c: string)
    requires ObjectsExist(h) && Mirrored(h) && Enabled(h, Join(c))
    ensures ObjectsExist(Do(h, Join(c))) && Mirrored(Do(h, Join(c)))
  {
  }

  lemma RegisterKeeps(h: Hub, id: string)
    requires ObjectsExist(h) && Mirrored(h)
    ensures ObjectsExist(Do(h, Register(id))) && Mirrored(Do(h, Register(id)))
  {
  }

  lemma StepKeeps(h: Hub, step: Step)
    requires ObjectsExist(h) && Mirrored(h) && Enabled(h, step)
    ensures ObjectsExist(Do(h, step)) && Mirrored(Do(h, step))
  {
    match step {
      case Leave(c) => LeaveKeeps(h, c);
      case Detach(c, _) => LeaveKeeps(h, c);
      case Close(c) => LeaveKeeps(h, c);
      case Join(c) => JoinKeeps(h, c);
      case Register(id) => RegisterKeeps(h, id);
      case _ =>
    }
  }

  lemma {:induction false} RunKeeps(trace: seq<Hub>, steps: seq<Step>, i: nat)
    requires IsRun(trace, steps) && i < |trace|
    ensures ObjectsExist(trace[i]) && Mirrored(trace[i])
  {
    if i > 0 {
      RunKeeps(trace, steps, i - 1);
      StepKeeps(trace[i - 1], steps[i - 1]);
    }
  }

  /** Connection `c` has moved; no other connection has, and no other client set has another member. */
  ghost predicate OnlyMoves(h: Hub, t: Hub, c: string) {
    && t.names == h.names && t.registered == h.registered
    && t.clients.Keys == h.clients.Keys && t.conns.Keys == h.conns.Keys
    && (forall d :: d in h.conns && d != c ==> t.conns[d] == h.conns[d])
    && (forall d, o :: o in h.clients && d != c ==> (d in t.clients[o] <==> d in h.clients[o]))
  }

  lemma LeaveMoves(h: Hub, c: string)
    requires ObjectsExist(h) && Mirrored(h) && c in h.conns
    ensures var t := LeaveNow(h, c);
            && OnlyMoves(h, t, c) && t.conns[c] == h.conns[c].(attached := None)
            && forall o :: o in h.clients ==> c !in t.clients[o]
  {
    forall o | o in h.clients ensures c !in LeaveNow(h, c).clients[o] {
      assert c in h.clients[o] <==> h.conns[c].attached == Some(o);
    }
  }

  lemma JoinMoves(h: Hub, c: string)
    requires Enabled(h, Join(c)) && forall o :: o in h.clients ==> c !in h.clients[o]
    ensures var t, target := Do(h, Join(c)), h.conns[c].phase.target;
            && OnlyMoves(h, t, c) && t.conns[c] == Conn(Some(target), Ready, h.conns[c].open)
            && forall o :: o in h.clients ==> (c in t.clients[o] <==> o == target)
  {
  }

  lemma MovesCompose(h: Hub, t: Hub, u: Hub, c: string)
    requires OnlyMoves(h, t, c) && OnlyMoves(t, u, c)
    ensures OnlyMoves(h, u, c)
  {
  }

  /** An attach frame takes the connection from wherever it was to the registered object of its id, or,
      for an unknown id, nowhere. */
  lemma AttachMoves(h: Hub, c: string, id: string)
    requires ObjectsExist(h) && Mirrored(h) && Enabled(h, Look(c, id))
    ensures var found := Do(h, Look(c, id));
            if id !in h.registered then found == h
            else
              && Enabled(found, Leave(c)) && Enabled(Do(found, Leave(c)), Join(c))
              && var t := Do(Do(found, Leave(c)), Join(c));
              && OnlyMoves(h, t, c) && t.conns[c] == Conn(Some(h.registered[id]), Ready, true)
              && forall o :: o in h.clients ==> (c in t.clients[o] <==> o == h.registered[id])
  {
    if id in h.registered {
      var found := SetPhase(h, c, Found(h.registered[id]));
      LeaveMoves(h, c);
      var left := Do(found, Leave(c));
      assert left == SetPhase(LeaveNow(h, c), c, Left(h.registered[id]));
      assert OnlyMoves(h, left, c);
      JoinMoves(left, c);
      MovesCompose(h, left, Do(left, Join(c)), c);
    }
  }

  /** A detach frame takes it out if it names the session it is attached to, and closing always does. */
  lemma DetachMoves(h: Hub, c: string, id: string)
    requires ObjectsExist(h) && Mirrored(h) && c in h.conns && h.conns[c].open && h.conns[c].phase.Ready?
    ensures var t, u := Do(h, Detach(c, id)), Do(h, Close(c));
            var named := h.conns[c].attached.Some? && h.names[h.conns[c].attached.value] == id;
            && OnlyMoves(h, t, c) && OnlyMoves(h, u, c)
            && t.conns[c] == (if named then h.conns[c].(attached := None) else h.conns[c])
            && u.conns[c] == Conn(None, Ready, false)
            && (forall o :: o in h.clients ==> c !in u.clients[o] && (named ==> c !in t.clients[o]))
  {
    LeaveMoves(h, c);
    var left := LeaveNow(h, c);
    assert Do(h, Close(c)) == left.(conns := left.conns[c := Conn(None, Ready, false)]);
  }

  /**
   Over every interleaving of any number of connections and registrations: a connection is among a
   session object's clients exactly when that object is the one it is attached to, so among those
   of at most one object, and of none once it is closed.
   */
  lemma AttachedToAtMostOne(trace: seq<Hub>, steps: seq<Step>, i: nat, c: string, o: Obj)
    requires IsRun(trace, steps) && i < |trace| && o in trace[i].clients
    ensures var h := trace[i];
            && (c in h.clients[o] <==> c in h.conns && h.conns[c].attached == Some(o))
            && (forall p :: p in h.clients && c in h.clients[o] && c in h.clients[p] ==> p == o)
            && (c in h.conns && !h.conns[c].open ==> c !in h.clients[o])
  {
    RunKeeps(trace, steps, i);
  }

  /** A closed connection never comes back, so it stays out of every client set. */
  lemma {:induction false} ClosedStaysOut(trace: seq<Hub>, steps: seq<Step>, i: nat, j: nat, c: string, o: Obj)
    requires IsRun(trace, steps) && i <= j < |trace|
    requires c in trace[i].conns && !trace[i].conns[c].open && o in trace[j].clients
    ensures c in trace[j].conns && !trace[j].conns[c].open && c !in trace[j].clients[o]
  {
    StaysClosed(trace, steps, i, j, c);
    RunKeeps(trace, steps, j);
  }

  lemma ClosedNext(h: Hub, step: Step, c: string)
    requires Mirrored(h) && Enabled(h, step) && c in h.conns && !h.conns[c].open
    ensures c in Do(h, step).conns && !Do(h, step).conns[c].open
  {
  }

  lemma {:induction false} StaysClosed(trace: seq<Hub>, steps: seq<Step>, i: nat, j: nat, c: string)
    requires IsRun(trace, steps) && i <= j < |trace|
    requires c in trace[i].conns && !trace[i].conns[c].open
    ensures c in trace[j].conns && !trace[j].conns[c].open
    decreases j
  {
    if i < j {
      StaysClosed(trace, steps, i, j - 1, c);
      RunKeeps(trace, steps, j - 1);
      ClosedNext(trace[j - 1], steps[j - 1], c);
    }
  }
}
