/** The coordinator's session object: its ring, its attached clients and the calls that use them. */
module Sessions {
  import opened Base
  import opened Ring
  import opened RingBuffers
  import opened Handover

  const SEND_QUEUE := 512

  /** A client connection. `calls` records every call of `Send`; `queue` is what was accepted,
      since a full queue drops the frame instead of blocking the daemon. */
  class ClientConn {
    const id: string
    var queue: seq<Frame>
    ghost var calls: seq<Frame>

    constructor (id: string)
      ensures this.id == id && queue == [] && calls == []
    {
      this.id := id;
      queue, calls := [], [];
    }

    method Send(msg: Frame)
      modifies `calls, `queue
      ensures calls == old(calls) + [msg]
      ensures queue == if |old(queue)| < 512 then old(queue) + [msg] else old(queue)
    {
      calls := calls + [msg];
      if |queue| < SEND_QUEUE {
        queue := queue + [msg];
      }
    }
  }

  /** Every Send call so far of each of these clients. */
  ghost function CallsOf(cs: set<ClientConn>): (r: map<ClientConn, seq<Frame>>)
    reads cs`calls
    ensures r.Keys == cs && forall c :: c in cs ==> r[c] == c.calls
  {
    map c | c in cs :: c.calls
  }

  /** The calls after one frame has been sent to each of `to`, and to nobody else. */
  ghost function WithSent(calls: map<ClientConn, seq<Frame>>, to: set<ClientConn>,
                          f: Frame): map<ClientConn, seq<Frame>>
  {
    map c | c in calls :: if c in to then calls[c] + [f] else calls[c]
  }

  class Session {
    const sessionID: string
    const machineID: string
    var state: Status
    var lastSeq: int
    var ended: bool
    var endedAt: nat
    var lastTouched: nat
    const ring: RingBuffer
    var attachedClients: map<string, ClientConn>
    ghost const epoch: nat    // which registration created this object

    ghost predicate Valid()
      reads `attachedClients, ring, ring.entries
    {
      ring.Valid() && ClientsById()
    }

    /** Clients are keyed by their connection id. */
    ghost predicate ClientsById()
      reads `attachedClients
    {
      forall k :: k in attachedClients ==> attachedClients[k].id == k
    }

    constructor (sessionID: string, machineID: string, maxBytes: int, now: nat, ghost epoch: nat)
      ensures Valid() && fresh(ring) && fresh(ring.entries)
      ensures this.sessionID == sessionID && this.machineID == machineID && this.epoch == epoch
      ensures state == Running && lastSeq == 0 && !ended && endedAt == 0 && lastTouched == now
      ensures ring.Value() == NewWindow(maxBytes) && attachedClients == map[]
    {
      this.sessionID, this.machineID := sessionID, machineID;
      state, lastSeq, ended, endedAt, lastTouched := Running, 0, false, 0, now;
      var r := new RingBuffer(maxBytes, now);
      ring := r;
      attachedClients := map[];
      this.epoch := epoch;
    }

    /** LastSeq becomes the greater of the two numbers; says whether it moved. */
    method RaiseLastSeq(seqNo: int, now: nat) returns (advanced: bool)
      modifies `lastSeq, `lastTouched
      ensures advanced == (seqNo > old(lastSeq))
      ensures lastSeq == (if advanced then seqNo else old(lastSeq))
      ensures lastTouched == (if advanced then now else old(lastTouched))
    {
      if seqNo > lastSeq {
        lastSeq := seqNo;
        lastTouched := now;
        return true;
      }
      return false;
    }

    method End(now: nat)
      modifies `ended, `endedAt, `lastTouched, `state
      ensures ended && endedAt == now && lastTouched == now && state == Ended
    {
      ended := true;
      endedAt := now;
      lastTouched := endedAt;
      state := Ended;
    }

    method Attach(conn: ClientConn, now: nat)
      requires ClientsById()
      modifies this`attachedClients, this`lastTouched
      ensures ClientsById()
      ensures attachedClients == old(attachedClients)[conn.id := conn] && lastTouched == now
    {
      attachedClients := attachedClients[conn.id := conn];
      lastTouched := now;
    }

    method Detach(connID: string, now: nat)
      requires ClientsById()
      modifies this`attachedClients, this`lastTouched
      ensures ClientsById()
      ensures attachedClients == old(attachedClients) - {connID} && lastTouched == now
    {
      attachedClients := attachedClients - {connID};
      lastTouched := now;
    }

    /** Every attached client once, in an arbitrary order. */
    method GetAttachedClients() returns (res: seq<ClientConn>)
      requires ClientsById()
      ensures Enumerates(seq(|res|, i requires 0 <= i < |res| => res[i].id), attachedClients.Keys)
      ensures forall i :: 0 <= i < |res| ==> res[i].id in attachedClients && attachedClients[res[i].id] == res[i]
    {
      res := [];
      var left := attachedClients.Keys;
      while left != {}
        invariant left <= attachedClients.Keys
        invariant forall i :: 0 <= i < |res| ==>
          res[i].id in attachedClients && attachedClients[res[i].id] == res[i] && res[i].id !in left
        invariant forall i, j :: 0 <= i < j < |res| ==> res[i].id != res[j].id
        invariant forall k :: k in attachedClients ==> k in left || attachedClients[k] in res
        decreases |left|
      {
        var k :| k in left;
        left := left - {k};
        res := res + [attachedClients[k]];
      }
      ghost var ids := seq(|res|, i requires 0 <= i < |res| => res[i].id);
      forall k | k in attachedClients ensures k in ids {
        var i :| 0 <= i < |res| && res[i] == attachedClients[k];
        assert ids[i] == k;
      }
    }

    /** Send one frame to every attached client, and to no other one of `cs`. */
    method FanOut(msg: Frame, ghost cs: set<ClientConn>)
      requires ClientsById() && attachedClients.Values <= cs
      modifies attachedClients.Values`calls, attachedClients.Values`queue
      ensures CallsOf(cs) == WithSent(old(CallsOf(cs)), attachedClients.Values, msg)
    {
      ghost var before := CallsOf(cs);
      FanOutEach(msg);
      forall c | c in cs ensures CallsOf(cs)[c] == WithSent(before, attachedClients.Values, msg)[c] {
        if c in attachedClients.Values {
          var k :| k in attachedClients && attachedClients[k] == c;
        }
      }
    }

    method FanOutEach(msg: Frame)
      requires ClientsById()
      modifies attachedClients.Values`calls, attachedClients.Values`queue
      ensures forall k :: k in attachedClients ==> attachedClients[k].calls == old(attachedClients[k].calls) + [msg]
    {
      var clients := GetAttachedClients();
      ghost var ids := seq(|clients|, i requires 0 <= i < |clients| => clients[i].id);
      for i := 0 to |clients|
        invariant forall j :: 0 <= j < i ==> clients[j].calls == old(clients[j].calls) + [msg]
        invariant forall j :: i <= j < |clients| ==> clients[j].calls == old(clients[j].calls)
      {
        assert clients[i].id in attachedClients;
        forall j | 0 <= j < |clients| && j != i ensures clients[j] != clients[i] {
          assert ids[i] != ids[j];
        }
        clients[i].Send(msg);
      }
      forall k | k in attachedClients
        ensures attachedClients[k].calls == old(attachedClients[k].calls) + [msg]
      {
        assert k in ids;
        var j :| 0 <= j < |ids| && ids[j] == k;
        assert clients[j] == attachedClients[k];
      }
    }

    method Publish(entry: Entry, now: nat, ghost cs: set<ClientConn>)
      requires Valid() && attachedClients.Values <= cs
      modifies ring, ring.entries, attachedClients.Values`calls, attachedClients.Values`queue
      ensures Valid() && (ring.entries == old(ring.entries) || fresh(ring.entries))
      ensures ring.Value() == Ring.Append(old(ring.Value()), entry)
      ensures CallsOf(cs) == WithSent(old(CallsOf(cs)), attachedClients.Values, Data(entry))
    {
      ghost var before := CallsOf(cs);
      ring.Append(entry, now);
      assert CallsOf(cs) == before;
      FanOut(Data(entry), cs);
    }

    method Broadcast(raw: seq<byte>, ghost cs: set<ClientConn>)
      requires Valid() && attachedClients.Values <= cs
      modifies attachedClients.Values`calls, attachedClients.Values`queue
      ensures Valid() && ring.Value() == old(ring.Value())
      ensures CallsOf(cs) == WithSent(old(CallsOf(cs)), attachedClients.Values, Control(raw))
    {
      FanOut(Control(raw), cs);
    }

    method AttachWithReplay(conn: ClientConn, lastSeq: uint64, now: nat) returns (replayed: nat, ok: bool)
      requires Valid()
      modifies this`attachedClients, this`lastTouched, conn
      ensures Valid() && ring.Value() == old(ring.Value())
      ensures attachedClients == old(attachedClients)[conn.id := conn] && lastTouched == now
      ensures conn.calls == old(conn.calls) + Backlog(Attachment(ring.Value(), lastSeq))
      ensures ok == Ring.Replay(ring.Value(), lastSeq).ok
      ensures replayed == |Ring.Replay(ring.Value(), lastSeq).entries|
    {
      var r := ring.Replay(lastSeq);
      if !r.ok {
        conn.Send(Unavailable(r.earliest, r.latest));
      } else {
        for i := 0 to |r.entries|
          invariant conn.calls == old(conn.calls) + Datas(r.entries)[..i]
          modifies conn
        {
          conn.Send(Data(r.entries[i]));
        }
      }
      Attach(conn, now);
      return |r.entries|, r.ok;
    }
  }
}
