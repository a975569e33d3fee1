/** Attach, detach and close handling of the client connections. */
module ClientWs {
  import opened Base
  import opened Ring
  import opened Sessions
  import opened Handover
  import opened RegistrySpec
  import opened SessionRegistry

  /** The sessions' values after one object has been stamped. */
  ghost function Stamp(m: map<string, Session>, h: map<string, SessionVal>, s: Session,
                       now: nat): map<string, SessionVal>
    requires h.Keys == m.Keys
  {
    map id | id in m :: if m[id] == s then h[id].(touched := now) else h[id]
  }

  /** The registry after a session object has been stamped, which need no longer be registered. */
  function Stamping(m: map<string, Session>, v: RegVal, s: Session?, now: nat): RegVal {
    if s != null && s in m.Values then Touch(v, s.sessionID, now) else v
  }

  lemma Stamped(m: map<string, Session>, v: RegVal, s: Session, now: nat)
    requires v.m.Keys == m.Keys && forall id :: id in m ==> m[id].sessionID == id
    ensures v.(m := Stamp(m, v.m, s, now)) == Stamping(m, v, s, now)
  {
    assert Stamp(m, v.m, s, now) == Stamping(m, v, s, now).m;
  }

  /** The read loop's state for one connection. */
  class ClientHandler {
    const conn: ClientConn
    var attachedSession: Session?

    constructor (conn: ClientConn)
      ensures this.conn == conn && attachedSession == null
    {
      this.conn := conn;
      attachedSession := null;
    }

    function Current(): set<Session>
      reads `attachedSession
    {
      if attachedSession != null then {attachedSession} else {}
    }

    /** What the sessions hold once the connection has left. */
    ghost function Left(reg: Registry, now: nat): map<string, SessionVal>
      reads `attachedSession, reg, reg.m.Values, reg.SessionRings()
    {
      if attachedSession != null then Stamp(reg.m, reg.Holds(), attachedSession, now) else reg.Holds()
    }

    /** The connection leaves the session object it is attached to, whatever is registered now. */
    method Leave(now: nat, ghost reg: Registry)
      requires attachedSession != null ==> attachedSession.ClientsById()
      modifies `attachedSession, Current()`attachedClients, Current()`lastTouched
      ensures attachedSession == null
      ensures old(attachedSession) != null ==>
                && old(attachedSession).ClientsById() && old(attachedSession).lastTouched == now
                && old(attachedSession).attachedClients == old(attachedSession.attachedClients) - {conn.id}
      ensures reg.Holds() == old(Left(reg, now))
    {
      if attachedSession != null {
        DetachFrom(attachedSession, now, reg);
      }
    }

    method DetachFrom(s: Session, now: nat, ghost reg: Registry)
      requires s.ClientsById()
      modifies `attachedSession, s`attachedClients, s`lastTouched
      ensures attachedSession == null
      ensures s.ClientsById() && s.attachedClients == old(s.attachedClients) - {conn.id} && s.lastTouched == now
      ensures reg.Holds() == Stamp(reg.m, old(reg.Holds()), s, now)
    {
      s.Detach(conn.id, now);
      attachedSession := null;
    }

    method AttachTo(s: Session, lastSeq: uint64, now: nat, ghost reg: Registry) returns (replayed: nat, ok: bool)
      requires s.Valid()
      modifies `attachedSession, s`attachedClients, s`lastTouched, conn
      ensures attachedSession == s && s.Valid() && s.ring.Value() == old(s.ring.Value())
      ensures s.attachedClients == old(s.attachedClients)[conn.id := conn] && s.lastTouched == now
      ensures conn.calls == old(conn.calls) + Backlog(Attachment(s.ring.Value(), lastSeq))
      ensures ok == Replay(s.ring.Value(), lastSeq).ok
      ensures reg.Holds() == Stamp(reg.m, old(reg.Holds()), s, now)
    {
      replayed, ok := s.AttachWithReplay(conn, lastSeq, now);
      attachedSession := s;
    }

    /** An attach frame: leave the old session, then replay and attach to the registered one. */
    method HandleAttach(reg: Registry, sessionID: string, lastSeq: uint64, now: nat, ghost v: RegVal)
      returns (replayed: nat, ok: bool)
      requires attachedSession != null ==> attachedSession.ClientsById()
      requires reg.Is(v) && (sessionID in reg.m ==> reg.m[sessionID].Valid())
      modifies `attachedSession, Current()`attachedClients, Current()`lastTouched
      modifies reg.m.Values`attachedClients, reg.m.Values`lastTouched, conn
      ensures sessionID !in reg.m ==>
                && !ok && attachedSession == old(attachedSession) && conn.calls == old(conn.calls) && reg.Is(v)
                && (attachedSession != null ==>
                      && attachedSession.attachedClients == old(attachedSession.attachedClients)
                      && attachedSession.lastTouched == old(attachedSession.lastTouched))
      ensures sessionID in reg.m ==>
                var s := reg.m[sessionID];
                && attachedSession == s && s.Valid() && s.ring.Value() == old(s.ring.Value())
                && s.attachedClients == old(s.attachedClients)[conn.id := conn] && s.lastTouched == now
                && conn.calls == old(conn.calls) + Backlog(Attachment(s.ring.Value(), lastSeq))
                && ok == Replay(s.ring.Value(), lastSeq).ok
                && reg.Is(Touch(Stamping(reg.m, v, old(attachedSession), now), sessionID, now))
                && (old(attachedSession) != null && old(attachedSession) != s ==>
                      && old(attachedSession).attachedClients == old(attachedSession.attachedClients) - {conn.id}
                      && old(attachedSession).lastTouched == now)
    {
      if sessionID !in reg.m {
        return 0, false;
      }
      ghost var w := Stamping(reg.m, v, attachedSession, now);
      if attachedSession != null {
        Stamped(reg.m, v, attachedSession, now);
      }
      Stamped(reg.m, w, reg.m[sessionID], now);
      replayed, ok := SwitchTo(reg.m[sessionID], lastSeq, now, reg);
    }

    method LeaveFor(s: Session, now: nat, ghost reg: Registry)
      requires s.Valid() && (attachedSession != null ==> attachedSession.ClientsById())
      modifies `attachedSession, Current()`attachedClients, Current()`lastTouched
      ensures attachedSession == null && s.Valid() && s.ring.Value() == old(s.ring.Value())
      ensures s.attachedClients[conn.id := conn] == old(s.attachedClients)[conn.id := conn]
      ensures old(attachedSession) != null && old(attachedSession) != s ==>
                && old(attachedSession).attachedClients == old(attachedSession.attachedClients) - {conn.id}
                && old(attachedSession).lastTouched == now
      ensures reg.Holds() == old(Left(reg, now))
    {
      Leave(now, reg);
      assert s.ring.Valid() && s.ClientsById();
    }

    method SwitchTo(s: Session, lastSeq: uint64, now: nat, ghost reg: Registry) returns (replayed: nat, ok: bool)
      requires s.Valid() && (attachedSession != null ==> attachedSession.ClientsById())
      modifies `attachedSession, Current()`attachedClients, Current()`lastTouched
      modifies s`attachedClients, s`lastTouched, conn
      ensures attachedSession == s && s.Valid() && s.ring.Value() == old(s.ring.Value())
      ensures s.attachedClients == old(s.attachedClients)[conn.id := conn] && s.lastTouched == now
      ensures conn.calls == old(conn.calls) + Backlog(Attachment(s.ring.Value(), lastSeq))
      ensures ok == Replay(s.ring.Value(), lastSeq).ok
      ensures old(attachedSession) != null && old(attachedSession) != s ==>
                && old(attachedSession).attachedClients == old(attachedSession.attachedClients) - {conn.id}
                && old(attachedSession).lastTouched == now
      ensures reg.Holds() == Stamp(reg.m, old(Left(reg, now)), s, now)
    {
      LeaveFor(s, now, reg);
      replayed, ok := AttachTo(s, lastSeq, now, reg);
    }

    /** A detach frame counts only when it names the attached session. */
    method HandleDetach(sessionID: string, now: nat, ghost reg: Registry, ghost v: RegVal)
      requires attachedSession != null ==> attachedSession.ClientsById()
      requires reg.Is(v)
      modifies `attachedSession, Current()`attachedClients, Current()`lastTouched
      ensures if old(attachedSession) != null && old(attachedSession).sessionID == sessionID
              then
                && attachedSession == null && reg.Is(Stamping(reg.m, v, old(attachedSession), now))
                && old(attachedSession).attachedClients == old(attachedSession.attachedClients) - {conn.id}
                && old(attachedSession).lastTouched == now
              else
                && attachedSession == old(attachedSession) && reg.Is(v)
                && (attachedSession != null ==>
                      && attachedSession.attachedClients == old(attachedSession.attachedClients)
                      && attachedSession.lastTouched == old(attachedSession.lastTouched))
    {
      if attachedSession != null && attachedSession.sessionID == sessionID {
        Stamped(reg.m, v, attachedSession, now);
        Leave(now, reg);
      }
    }

    /** The connection is gone: leave. */
    method Close(now: nat, ghost reg: Registry, ghost v: RegVal)
      requires attachedSession != null ==> attachedSession.ClientsById()
      requires reg.Is(v)
      modifies `attachedSession, Current()`attachedClients, Current()`lastTouched
      ensures attachedSession == null && reg.Is(Stamping(reg.m, v, old(attachedSession), now))
      ensures old(attachedSession) != null ==>
                && old(attachedSession).attachedClients == old(attachedSession.attachedClients) - {conn.id}
                && old(attachedSession).lastTouched == now
    {
      if attachedSession != null {
        Stamped(reg.m, v, attachedSession, now);
      }
      Leave(now, reg);
    }
  }
}
