/** What every client is sent because of a frame, client by client. */
module IngestSends {
  import opened Base
  import opened Ring
  import opened Handover
  import opened Sessions
  import opened RegistrySpec
  import opened IngestSpec
  import opened SessionRegistry
  import opened Ingestors
  import opened IngestEffects

  /** The calls of one client grow by these frames. */
  ghost predicate Sent(calls: map<ClientConn, seq<Frame>>, calls': map<ClientConn, seq<Frame>>, c: ClientConn,
                       frames: seq<Frame>)
  {
    calls'.Keys == calls.Keys && (c in calls ==> calls'[c] == calls[c] + frames)
  }

  /** An entry with a number ahead goes once to each client of its session, a stale one to nobody. */
  lemma EntrySent(calls: map<ClientConn, seq<Frame>>, v: IngestVal, conn: ConnId, fr: DaemonFrame, order: seq<string>,
                  members: map<string, set<ClientConn>>, control: (DaemonFrame, string) -> seq<byte>,
                  paused: Status -> seq<byte>, c: ClientConn, e: Entry)
    requires IngestEffects.Registered(v, conn) && members.Keys == v.reg.m.Keys
    requires (fr.SessionEvent? || fr.SessionPty?) && (fr.seqNo >= 0 ==> Brings(fr, e))
    requires fr.id in v.reg.m ==> v.reg.m[fr.id].lastSeq >= 0
    ensures Sent(calls, HandleCalls(calls, v, conn, fr, order, members, control, paused), c,
              if fr.id in v.reg.m && fr.seqNo > v.reg.m[fr.id].lastSeq && c in members[fr.id] then [Data(e)] else [])
  {
    if c in calls { assert calls[c] + [] == calls[c]; }
  }

  /** A state change or an end goes to each client of a known session, whatever its number, with the
      machine's id added; nobody else is sent anything. */
  lemma MarkSent(calls: map<ClientConn, seq<Frame>>, v: IngestVal, conn: ConnId, fr: DaemonFrame, order: seq<string>,
                 members: map<string, set<ClientConn>>, control: (DaemonFrame, string) -> seq<byte>,
                 paused: Status -> seq<byte>, c: ClientConn)
    requires IngestEffects.Registered(v, conn) && members.Keys == v.reg.m.Keys
    requires fr.SessionStateChange? || fr.SessionEnded?
    ensures Sent(calls, HandleCalls(calls, v, conn, fr, order, members, control, paused), c,
              if fr.id in v.reg.m && c in members[fr.id] then [Control(control(fr, v.reg.m[fr.id].machineID))] else [])
  {
    if c in calls { assert calls[c] + [] == calls[c]; }
  }

  /** The notices for client `c` when these sessions are paused in turn. */
  ghost function Notices(v: RegVal, order: seq<string>, members: map<string, set<ClientConn>>, machineID: string,
                         frame: Status -> seq<byte>, c: ClientConn): seq<Frame>
  {
    if order == [] then []
    else
      var id := order[|order| - 1];
      Notices(v, order[..|order| - 1], members, machineID, frame, c) +
      if id in v.m && id in members && c in members[id] && v.m[id].machineID == machineID && !v.m[id].ended &&
         v.m[id].state != Paused
      then [Control(frame(v.m[id].state))] else []
  }

  lemma {:induction false} PausesSent(calls: map<ClientConn, seq<Frame>>, v: RegVal, order: seq<string>,
                                      members: map<string, set<ClientConn>>, machineID: string,
                                      frame: Status -> seq<byte>, c: ClientConn)
    ensures Sent(calls, PauseCalls(calls, v, order, members, machineID, frame), c,
              Notices(v, order, members, machineID, frame, c))
    decreases |order|
  {
    if c in calls {
      if order == [] {
        assert calls[c] + [] == calls[c];
      } else {
        var before := Notices(v, order[..|order| - 1], members, machineID, frame, c);
        PausesSent(calls, v, order[..|order| - 1], members, machineID, frame, c);
        assert before + [] == before;
        var id := order[|order| - 1];
        if id in v.m {
          var f := [Control(frame(v.m[id].state))];
          assert calls[c] + (before + f) == (calls[c] + before) + f;
        }
      }
    } else if order != [] {
      PausesSent(calls, v, order[..|order| - 1], members, machineID, frame, c);
    }
  }

  lemma {:induction false} NoticesOf(v: RegVal, order: seq<string>, members: map<string, set<ClientConn>>,
                                     machineID: string, frame: Status -> seq<byte>, c: ClientConn, id: string)
    requires forall i, j :: 0 <= i < j < |order| ==> order[i] != order[j]
    requires forall k :: k in members && c in members[k] ==> k == id
    ensures Notices(v, order, members, machineID, frame, c) ==
            if id in order && id in v.m && id in members && c in members[id] && v.m[id].machineID == machineID &&
               !v.m[id].ended && v.m[id].state != Paused
            then [Control(frame(v.m[id].state))] else []
    decreases |order|
  {
    if order != [] {
      NoticesOf(v, order[..|order| - 1], members, machineID, frame, c, id);
      assert order == order[..|order| - 1] + [order[|order| - 1]];
    }
  }

  /** A client attached to one session is told once when that session is paused, with the state it
      had, and otherwise nothing: when its machine suspends, and when the machine's connection is lost. */
  lemma PauseSent(calls: map<ClientConn, seq<Frame>>, v: IngestVal, conn: ConnId, order: seq<string>,
                  members: map<string, set<ClientConn>>, control: (DaemonFrame, string) -> seq<byte>,
                  paused: Status -> seq<byte>, c: ClientConn, id: string)
    requires IngestEffects.Registered(v, conn) && members.Keys == v.reg.m.Keys && Enumerates(order, v.reg.m.Keys)
    requires id in v.reg.m && c in members[id] && forall k :: k in members && c in members[k] ==> k == id
    ensures var s, machineID := v.reg.m[id], v.conns[conn].machineID;
            var told :=
              if s.machineID == machineID && !s.ended && s.state != Paused then [Control(paused(s.state))] else [];
            && Sent(calls, HandleCalls(calls, v, conn, MachineSuspending, order, members, control, paused), c, told)
            && Sent(calls, PauseCalls(calls, v.reg, order, members, machineID, paused), c, told)
  {
    PausesSent(calls, v.reg, order, members, v.conns[conn].machineID, paused, c);
    NoticesOf(v.reg, order, members, v.conns[conn].machineID, paused, c, id);
  }

  /** No other frame sends anything to anybody, nor does any frame before the registration. */
  lemma NothingElseSent(calls: map<ClientConn, seq<Frame>>, v: IngestVal, conn: ConnId, fr: DaemonFrame,
                        order: seq<string>, members: map<string, set<ClientConn>>,
                        control: (DaemonFrame, string) -> seq<byte>, paused: Status -> seq<byte>)
    requires !IngestEffects.Registered(v, conn) ||
      !(fr.SessionEvent? || fr.SessionPty? || fr.SessionStateChange? || fr.SessionEnded? || fr.MachineSuspending?)
    ensures HandleCalls(calls, v, conn, fr, order, members, control, paused) == calls
  {
  }
}
