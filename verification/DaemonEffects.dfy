/** What every operation of the daemon's session registry does to its sessions, spelled out. */
module DaemonEffects {
  import opened Base
  import opened DaemonSpec

  /** A registration is refused if and only if another process holds the id; a first one is announced,
      and a session without a heartbeat is given one now. */
  lemma RegisterEffect(v: Reg, id: string, s: Sess, now: int)
    ensures var w := Register(v, id, s, now);
            if id in v.sessions && v.sessions[id].pid != s.pid then w == v
            else
              && w == v.(sessions := v.sessions[id := w.sessions[id]], trace := w.trace)
              && w.sessions[id] == (if s.heartbeat == None then s.(heartbeat := Some(now)) else s)
              && w.trace == v.trace + if id in v.sessions then [] else [OnRegister(id)]
  {
    assert v.trace + [] == v.trace;
  }

  /** A heartbeat is noted and announced, and revives an unresponsive session; no other changes. */
  lemma HeartbeatEffect(v: Reg, id: string, ts: int)
    ensures var w := UpdateHeartbeat(v, id, ts);
            if id !in v.sessions then w == v
            else
              var s := v.sessions[id];
              var revived := s.state == Unresponsive;
              && w.ended == v.ended
              && w.sessions ==
                   v.sessions[id := s.(heartbeat := Some(ts), state := if revived then Running else s.state)]
              && w.trace == v.trace + (if revived then [OnStateChange(id, Unresponsive, Running)] else [])
                                    + [OnHeartbeat(id, ts)]
  {
    assert v.trace + [] == v.trace;
  }

  /** Both endings record the id as ended; one forgets the session, the other keeps it, ended and
      stamped. For an id that ended before, the first only forgets and the second does nothing. */
  lemma EndEffect(v: Reg, id: string, reason: string, now: int)
    ensures var w, u := RemoveWithReason(v, id, reason, now), MarkEnded(v, id, now);
            && w.sessions == v.sessions - {id}
            && if id in v.sessions && id !in v.ended then
                 && w.ended == u.ended == v.ended + {id}
                 && w.trace == v.trace + [OnEnded(id, EndedExplicit, reason, Some(now))]
                 && u.trace == v.trace + [OnEnded(id, EndedImplicit, "", Some(now))]
                 && u.sessions == v.sessions[id := v.sessions[id].(state := Ended, endedAt := Some(now))]
               else
                 w.ended == v.ended && w.trace == v.trace && u == v
  {
  }

  /** The running and idle sessions without a heartbeat in the last `timeout` become unresponsive, in
      whatever order the map is walked; all others stay as they are. */
  lemma SweepEffect(v: Reg, order: seq<string>, now: int, timeout: int, id: string)
    requires Enumerates(order, v.sessions.Keys) && id in v.sessions
    ensures var w, s := Sweep(v, order, now, timeout), v.sessions[id];
            var silent :=
              (s.state == Running || s.state == Idle) && (s.heartbeat == None || s.heartbeat.value + timeout < now);
            && w.sessions.Keys == v.sessions.Keys && w.ended == v.ended
            && w.sessions[id] == (if silent then s.(state := Unresponsive) else s)
            && (id in Flipped(v, order, now, timeout) <==> silent)
            && |w.trace| == |v.trace| + |Flipped(v, order, now, timeout)| && w.trace[..|v.trace|] == v.trace
            && (silent <==> OnStateChange(id, s.state, Unresponsive) in w.trace[|v.trace|..])
  {
    SweepFlipsExactly(v, order, now, timeout);
    var w, s, flipped := Sweep(v, order, now, timeout), v.sessions[id], Flipped(v, order, now, timeout);
    if i :| 0 <= i < |flipped| && flipped[i] == id {
      assert w.trace[|v.trace|..][i] == OnStateChange(id, s.state, Unresponsive);
    }
    if i :| 0 <= i < |w.trace[|v.trace|..]| && w.trace[|v.trace|..][i] == OnStateChange(id, s.state, Unresponsive) {
      assert w.trace[|v.trace| + i] == w.trace[|v.trace|..][i];
      assert flipped[i] == id;
    }
  }

  /** Reaping forgets exactly what ended longer ago than `ttl`, and announces nothing. */
  lemma ReapEffect(v: Reg, now: int, ttl: int)
    ensures var w := Reap(v, now, ttl);
            && w.ended == v.ended && w.trace == v.trace && w.sessions.Keys <= v.sessions.Keys
            && forall id :: id in v.sessions ==>
                 var s := v.sessions[id];
                 if s.state == Ended && s.endedAt.Some? && s.endedAt.value + ttl < now then id !in w.sessions
                 else id in w.sessions && w.sessions[id] == s
  {
  }

  /** What is live: everything registered that has not ended. */
  lemma LiveExactly(v: Reg, id: string)
    ensures id in LiveIds(v) <==> id in v.sessions && v.sessions[id].state != Ended
  {
  }

  /** A session that has just registered, or just given a heartbeat, is not flipped before a whole
      timeout has passed without another one, and a running one is flipped after that. */
  lemma GracePeriod(v: Reg, id: string, s: Sess, order: seq<string>, at: int, now: int, timeout: int)
    requires s.heartbeat == None && s.state == Running && id !in v.sessions
    requires Enumerates(order, v.sessions.Keys + {id})
    ensures var w := Sweep(Register(v, id, s, at), order, now, timeout);
            id in w.sessions && (w.sessions[id].state == Unresponsive <==> at + timeout < now)
    ensures forall ts :: var w := Sweep(UpdateHeartbeat(Register(v, id, s, at), id, ts), order, now, timeout);
              id in w.sessions && (w.sessions[id].state == Unresponsive <==> ts + timeout < now)
  {
    var r := Register(v, id, s, at);
    RegisterEffect(v, id, s, at);
    assert r.sessions.Keys == v.sessions.Keys + {id};
    SweepEffect(r, order, now, timeout, id);
    forall ts
      ensures var w := Sweep(UpdateHeartbeat(r, id, ts), order, now, timeout);
              id in w.sessions && (w.sessions[id].state == Unresponsive <==> ts + timeout < now)
    {
      HeartbeatEffect(r, id, ts);
      assert UpdateHeartbeat(r, id, ts).sessions.Keys == r.sessions.Keys;
      SweepEffect(UpdateHeartbeat(r, id, ts), order, now, timeout, id);
    }
  }
}
