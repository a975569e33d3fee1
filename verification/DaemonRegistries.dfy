/** The daemon's session registry object, proved against `DaemonSpec`. */
module DaemonRegistries {
  import opened Base
  import D = DaemonSpec

  class Session {
    const sessionID: string
    const pid: int
    var state: Status
    var lastHeartbeat: D.Time
    var endedAt: D.Time

    constructor (sessionID: string, pid: int)
      ensures this.sessionID == sessionID && ValueOf(this) == D.Sess(pid, Running, None, None)
    {
      this.sessionID, this.pid := sessionID, pid;
      state, lastHeartbeat, endedAt := Running, None, None;
    }
  }

  function ValueOf(s: Session): D.Sess
    reads s
  {
    D.Sess(s.pid, s.state, s.lastHeartbeat, s.endedAt)
  }

  class Registry {
    var sessions: map<string, Session>
    var ended: set<string>    // ids whose end has been reported
    ghost var trace: seq<D.Callback>

    /** The registry holds the value `v`. */
    ghost predicate Is(v: D.Reg)
      reads this, sessions.Values
    {
      && v.ended == ended && v.trace == trace && v.sessions.Keys == sessions.Keys
      && forall id :: id in sessions ==> sessions[id].sessionID == id && ValueOf(sessions[id]) == v.sessions[id]
    }

    constructor ()
      ensures Is(D.NewReg()) && sessions == map[]
    {
      sessions, ended, trace := map[], {}, [];
    }

    ghost method Fire(c: D.Callback)
      modifies `trace
      ensures trace == old(trace) + [c]
    {
      trace := trace + [c];
    }

    /** Only a first registration fires the callback; another process may not take the id. */
    method Register(s: Session, now: int, ghost v: D.Reg) returns (accepted: bool)
      requires Is(v)
      modifies this`sessions, this`trace, s`lastHeartbeat
      ensures accepted <==> D.Accepts(v, s.sessionID, old(ValueOf(s)))
      ensures Is(D.Register(v, s.sessionID, old(ValueOf(s)), now))
      ensures sessions == if accepted then old(sessions)[s.sessionID := s] else old(sessions)
    {
      if s.lastHeartbeat.None? {
        s.lastHeartbeat := Some(now);
      }
      var present := s.sessionID in sessions;
      if present && sessions[s.sessionID].pid != s.pid {
        return false;
      }
      sessions := sessions[s.sessionID := s];
      if !present {
        Fire(D.OnRegister(s.sessionID));
      }
      return true;
    }

    method UpdateHeartbeat(id: string, ts: int, ghost v: D.Reg) returns (ok: bool)
      requires Is(v)
      modifies this`trace, sessions.Values`lastHeartbeat, sessions.Values`state
      ensures ok <==> id in sessions
      ensures Is(D.UpdateHeartbeat(v, id, ts))
    {
      if id !in sessions {
        return false;
      }
      var s := sessions[id];
      s.lastHeartbeat := Some(ts);
      if s.state == Unresponsive {
        s.state := Running;
        Fire(D.OnStateChange(id, Unresponsive, Running));
      }
      Fire(D.OnHeartbeat(id, ts));
      return true;
    }

    method Event(id: string, raw: seq<byte>, ghost v: D.Reg)
      requires Is(v)
      modifies this`trace
      ensures Is(D.Event(v, id, raw))
    {
      Fire(D.OnEvent(id, raw));
    }

    method RemoveWithReason(id: string, reason: string, now: int, ghost v: D.Reg)
      requires Is(v)
      modifies this, sessions.Values`endedAt
      ensures sessions == old(sessions) - {id}
      ensures Is(D.RemoveWithReason(v, id, reason, now))
    {
      var ends := id in sessions && id !in ended;
      if ends {
        sessions[id].endedAt := Some(now);
        ended := ended + {id};
      }
      sessions := sessions - {id};
      if ends {
        Fire(D.OnEnded(id, D.EndedExplicit, reason, Some(now)));
      }
    }

    method MarkEnded(id: string, now: int, ghost v: D.Reg)
      requires Is(v)
      modifies this`ended, this`trace, sessions.Values`state, sessions.Values`endedAt
      ensures Is(D.MarkEnded(v, id, now))
    {
      if id in sessions && id !in ended {
        sessions[id].state := Ended;
        sessions[id].endedAt := Some(now);
        ended := ended + {id};
        Fire(D.OnEnded(id, D.EndedImplicit, "", Some(now)));
      }
    }

    method SweepOne(id: string, now: int, timeout: int, ghost v: D.Reg) returns (flips: bool)
      requires Is(v) && id in sessions
      modifies this`trace, sessions.Values`state
      ensures flips == D.Flips(v.sessions[id], now, timeout)
      ensures Is(D.SweepOne(v, id, now, timeout))
    {
      var s := sessions[id];
      if s.state != Running && s.state != Idle {
        return false;
      }
      if s.lastHeartbeat.Some? && now - s.lastHeartbeat.value <= timeout {
        return false;
      }
      var from := s.state;
      s.state := Unresponsive;
      Fire(D.OnStateChange(id, from, Unresponsive));
      return true;
    }

    /** `order` lists the registered ids that are not in `left`, once each. */
    ghost predicate Listed(order: seq<string>, left: set<string>)
      reads `sessions
    {
      && (forall i, j :: 0 <= i < j < |order| ==> order[i] != order[j])
      && (forall id :: id in order <==> id in sessions && id !in left)
    }

    /** One turn of the sweep over the sessions not yet looked at. */
    method SweepNext(left: set<string>, flipped: seq<string>, now: int, timeout: int, ghost order: seq<string>,
                     ghost v: D.Reg)
      returns (left': set<string>, flipped': seq<string>, ghost order': seq<string>)
      requires left != {} && left <= v.sessions.Keys && Listed(order, left)
      requires flipped == D.Flipped(v, order, now, timeout)
      requires Is(D.Sweep(v, order, now, timeout))
      modifies this`trace, sessions.Values`state
      ensures left' < left && Listed(order', left')
      ensures flipped' == D.Flipped(v, order', now, timeout)
      ensures Is(D.Sweep(v, order', now, timeout))
    {
      var id :| id in left;
      D.SweepSnoc(v, order, id, now, timeout);
      var flips := SweepOne(id, now, timeout, D.Sweep(v, order, now, timeout));
      left' := left - {id};
      flipped' := flipped + if flips then [id] else [];
      order' := order + [id];
    }

    /** `order` is the iteration order of the map. */
    method SweepHeartbeats(now: int, timeout: int, ghost v: D.Reg)
      returns (flipped: seq<string>, ghost order: seq<string>)
      requires Is(v)
      modifies this`trace, sessions.Values`state
      ensures Enumerates(order, sessions.Keys)
      ensures flipped == D.Flipped(v, order, now, timeout)
      ensures Is(D.Sweep(v, order, now, timeout))
    {
      flipped, order := [], [];
      var left := sessions.Keys;
      while left != {}
        invariant left <= v.sessions.Keys && Listed(order, left)
        invariant flipped == D.Flipped(v, order, now, timeout)
        invariant Is(D.Sweep(v, order, now, timeout))
        decreases left
      {
        left, flipped, order := SweepNext(left, flipped, now, timeout, order, v);
      }
    }

    method ReapEnded(now: int, ttl: int, ghost v: D.Reg) returns (reaped: nat)
      requires Is(v)
      modifies this`sessions
      ensures Is(D.Reap(v, now, ttl))
      ensures reaped == |v.sessions| - |D.Reap(v, now, ttl).sessions|
    {
      reaped := 0;
      var left := sessions.Keys;
      ghost var all := sessions;
      while left != {}
        invariant left <= sessions.Keys && sessions.Keys <= all.Keys
        invariant forall id :: id in sessions ==> sessions[id] == all[id]
        invariant forall id :: id in all ==> (id in sessions <==> id in left || !D.Reapable(v.sessions[id], now, ttl))
        invariant reaped == |all| - |sessions|
        decreases |left|
      {
        var id :| id in left;
        left := left - {id};
        var s := sessions[id];
        if s.state == Ended && s.endedAt.Some? && now - s.endedAt.value > ttl {
          sessions := sessions - {id};
          reaped := reaped + 1;
        }
      }
      assert sessions.Keys == D.Reap(v, now, ttl).sessions.Keys;
      KeyCounts(all, v.sessions);
      KeyCounts(sessions, D.Reap(v, now, ttl).sessions);
    }

    /** Value copies of the sessions that are not ended. */
    method Snapshot(ghost v: D.Reg) returns (out: seq<(string, D.Sess)>)
      requires Is(v)
      ensures Enumerates(Ids(out), D.LiveIds(v))
      ensures forall i :: 0 <= i < |out| ==> out[i].0 in v.sessions && out[i].1 == v.sessions[out[i].0]
    {
      out := [];
      var left := sessions.Keys;
      while left != {}
        invariant left <= sessions.Keys
        invariant forall i, j :: 0 <= i < j < |out| ==> out[i].0 != out[j].0
        invariant forall i :: 0 <= i < |out| ==>
          out[i].0 in D.LiveIds(v) && out[i].0 !in left && out[i].1 == v.sessions[out[i].0]
        invariant forall id :: id in D.LiveIds(v) ==> id in left || (id, v.sessions[id]) in out
        decreases |left|
      {
        var id :| id in left;
        left := left - {id};
        if sessions[id].state == Ended {
          continue;
        }
        out := out + [(id, ValueOf(sessions[id]))];
      }
      SnapshotIds(out, v);
    }
  }

  function Ids(out: seq<(string, D.Sess)>): (ids: seq<string>)
    ensures |ids| == |out| && forall i :: 0 <= i < |ids| ==> ids[i] == out[i].0
  {
    seq(|out|, i requires 0 <= i < |out| => out[i].0)
  }

  lemma SnapshotIds(out: seq<(string, D.Sess)>, v: D.Reg)
    requires forall i, j :: 0 <= i < j < |out| ==> out[i].0 != out[j].0
    requires forall i :: 0 <= i < |out| ==> out[i].0 in D.LiveIds(v)
    requires forall id :: id in D.LiveIds(v) ==> (id, v.sessions[id]) in out
    ensures Enumerates(Ids(out), D.LiveIds(v))
  {
    forall id | id in D.LiveIds(v) ensures id in Ids(out) {
      var i :| 0 <= i < |out| && out[i] == (id, v.sessions[id]);
      assert Ids(out)[i] == id;
    }
  }

  lemma KeyCounts<S, T>(a: map<string, S>, b: map<string, T>)
    requires a.Keys == b.Keys
    ensures |a| == |b|
  {
    assert |a| == |a.Keys| && |b| == |b.Keys|;
  }
}
