/** The coordinator's registry object, proved against `RegistrySpec`. */
module SessionRegistry {
  import opened Base
  import opened Ring
  import opened RingBuffers
  import opened Balance
  import opened Handover
  import opened Sessions
  import opened RegistrySpec
  import LruBalancer

  const DEFAULT_TOTAL := 50 * 1024 * 1024
  const DEFAULT_FLOOR := 1 * 1024 * 1024

  ghost function ValueOf(s: Session): SessionVal
    reads s`state, s`lastSeq, s`ended, s`lastTouched
    reads s.ring`live, s.ring`maxBytes, s.ring`earliestSeq, s.ring`latestSeq, s.ring`history
  {
    SessionVal(s.machineID, s.state, s.lastSeq, s.ended, s.lastTouched, s.ring.Value(), s.epoch)
  }

  class Registry {
    var m: map<string, Session>
    const totalCacheBytes: int
    const sessionCacheFloorBytes: int
    ghost var epochs: nat          // registrations so far
    ghost var Repr: set<object>    // every session object, ring and slice there has been

    ghost function SessionRings(): set<RingBuffer>
      reads `m
    {
      set id | id in m :: m[id].ring
    }

    ghost function SessionSlices(): set<array<Entry>>
      reads `m, SessionRings()`entries
    {
      set id | id in m :: m[id].ring.entries
    }

    /** Every ring is a well-formed buffer, and no two sessions share a ring or a slice. */
    ghost predicate RingsOk()
      reads `m, `Repr, SessionRings(), SessionSlices()
    {
      && (forall id {:trigger m[id].ring.Valid()} :: id in m ==> m[id].ring.Valid())
      && (forall id :: id in m ==> m[id] in Repr && m[id].ring in Repr && m[id].ring.entries in Repr)
      && (forall a, b {:trigger m[a].ring, m[b].ring} :: a in m && b in m && a != b ==>
            m[a].ring != m[b].ring && m[a].ring.entries != m[b].ring.entries)
    }

    /** What every session holds. */
    ghost function Holds(): map<string, SessionVal>
      reads `m, m.Values`state, m.Values`lastSeq, m.Values`ended, m.Values`lastTouched
      reads SessionRings()`live, SessionRings()`maxBytes, SessionRings()`earliestSeq, SessionRings()`latestSeq
      reads SessionRings()`history
    {
      map id | id in m :: ValueOf(m[id])
    }

    /** The registry holds the value `v`. Methods take the value before as a ghost argument. */
    ghost predicate Is(v: RegVal)
      reads `m, `epochs, m.Values`state, m.Values`lastSeq, m.Values`ended, m.Values`lastTouched
      reads SessionRings()`live, SessionRings()`maxBytes, SessionRings()`earliestSeq, SessionRings()`latestSeq
      reads SessionRings()`history
    {
      && v.cap == totalCacheBytes > 0 && v.floor == sessionCacheFloorBytes > 0 && v.epochs == epochs
      && (forall id :: id in m ==> m[id].sessionID == id) && Holds() == v.m
    }

    /** `members` are the clients of every session, keyed by connection id and all among `cs`. */
    ghost predicate ClientsHeld(members: map<string, set<ClientConn>>, cs: set<ClientConn>)
      reads `m, m.Values`attachedClients
    {
      && members.Keys == m.Keys
      && forall id :: id in m ==> m[id].ClientsById() && m[id].attachedClients.Values == members[id] <= cs
    }

    constructor WithLimits(totalCacheBytes: int, sessionCacheFloorBytes: int)
      ensures m == map[]
      ensures Is(RegVal(map[],
        if totalCacheBytes <= 0 then 52_428_800 else totalCacheBytes,
        if sessionCacheFloorBytes <= 0 then 1_048_576 else sessionCacheFloorBytes, 0))
    {
      m, Repr := map[], {};
      this.totalCacheBytes := if totalCacheBytes <= 0 then DEFAULT_TOTAL else totalCacheBytes;
      this.sessionCacheFloorBytes := if sessionCacheFloorBytes <= 0 then DEFAULT_FLOOR else sessionCacheFloorBytes;
      epochs := 0;
    }

    /** The new object starts with no clients; every other session keeps its object and its clients. */
    method Register(sessionID: string, machineID: string, now: nat, ghost v: RegVal,
                    ghost members: map<string, set<ClientConn>>, ghost cs: set<ClientConn>)
      returns (s: Session)
      requires Is(v) && RingsOk() && ClientsHeld(members, cs)
      modifies `m, `epochs, `Repr
      ensures Is(RegistrySpec.Register(v, sessionID, machineID, now)) && RingsOk()
      ensures fresh(s) && fresh(s.ring) && fresh(s.ring.entries)
      ensures m == old(m)[sessionID := s] && s.attachedClients == map[]
      ensures ClientsHeld(members[sessionID := {}], cs)
      ensures Repr == old(Repr) + {s, s.ring, s.ring.entries}
    {
      var initial := totalCacheBytes / 10;
      if initial < sessionCacheFloorBytes {
        initial := sessionCacheFloorBytes;
      }
      s := new Session(sessionID, machineID, initial, now, epochs);
      Insert(s, v, members, cs);
    }

    method Insert(s: Session, ghost v: RegVal, ghost members: map<string, set<ClientConn>>, ghost cs: set<ClientConn>)
      requires Is(v) && RingsOk() && s.ring.Valid() && s.epoch == epochs
      requires s.ring !in SessionRings() && s.ring.entries !in SessionSlices()
      requires ClientsHeld(members, cs) && s.attachedClients == map[]
      modifies `m, `epochs, `Repr
      ensures m == old(m)[s.sessionID := s] && RingsOk() && ClientsHeld(members[s.sessionID := {}], cs)
      ensures Is(v.(m := v.m[s.sessionID := ValueOf(s)], epochs := v.epochs + 1))
      ensures Repr == old(Repr) + {s, s.ring, s.ring.entries}
    {
      Put(s, members, cs);
    }

    method Put(s: Session, ghost members: map<string, set<ClientConn>>, ghost cs: set<ClientConn>)
      requires RingsOk() && s.ring.Valid() && s.ring !in SessionRings() && s.ring.entries !in SessionSlices()
      requires ClientsHeld(members, cs) && s.attachedClients == map[]
      modifies `m, `epochs, `Repr
      ensures m == old(m)[s.sessionID := s] && epochs == old(epochs) + 1
      ensures Holds() == old(Holds())[s.sessionID := ValueOf(s)]
      ensures RingsOk() && ClientsHeld(members[s.sessionID := {}], cs)
      ensures Repr == old(Repr) + {s, s.ring, s.ring.entries}
    {
      PutRings(s);
    }

    method PutRings(s: Session)
      requires RingsOk() && s.ring.Valid() && s.ring !in SessionRings() && s.ring.entries !in SessionSlices()
      modifies `m, `epochs, `Repr
      ensures m == old(m)[s.sessionID := s] && epochs == old(epochs) + 1
      ensures Holds() == old(Holds())[s.sessionID := ValueOf(s)] && RingsOk()
      ensures Repr == old(Repr) + {s, s.ring, s.ring.entries}
    {
      ghost var before := m;
      PutValue(s);
      RingsOkWith(before, s);
    }

    method PutValue(s: Session)
      modifies `m, `epochs, `Repr
      ensures m == old(m)[s.sessionID := s] && epochs == old(epochs) + 1
      ensures Holds() == old(Holds())[s.sessionID := ValueOf(s)]
      ensures Repr == old(Repr) + {s, s.ring, s.ring.entries}
    {
      m := m[s.sessionID := s];
      epochs := epochs + 1;
      Repr := Repr + {s, s.ring, s.ring.entries};
    }

    lemma RingsOkWith(before: map<string, Session>, s: Session)
      requires m == before[s.sessionID := s] && s.ring.Valid() && {s, s.ring, s.ring.entries} <= Repr
      requires forall id :: id in before ==>
              before[id] in Repr && before[id].ring in Repr && before[id].ring.entries in Repr
      requires forall id {:trigger before[id].ring.Valid()} :: id in before ==>
        before[id].ring.Valid() && before[id].ring != s.ring && before[id].ring.entries != s.ring.entries
      requires forall a, b {:trigger before[a].ring, before[b].ring} :: a in before && b in before && a != b ==>
        before[a].ring != before[b].ring && before[a].ring.entries != before[b].ring.entries
      ensures RingsOk()
    {
      forall id | id in m ensures m[id].ring.Valid() {
        if id != s.sessionID { assert before[id].ring.Valid(); }
      }
      forall a, b | a in m && b in m && a != b
        ensures m[a].ring != m[b].ring && m[a].ring.entries != m[b].ring.entries
      {
        if a == s.sessionID {
          assert before[b].ring.Valid();
        } else if b == s.sessionID {
          assert before[a].ring.Valid();
        } else {
          assert before[a].ring != before[b].ring;
        }
      }
    }

    /** Set LastSeq to `seqNo` if that is an advance. */
    method AdvanceSeq(sessionID: string, seqNo: int, now: nat, ghost v: RegVal) returns (advanced: bool)
      requires Is(v)
      modifies m.Values`lastSeq, m.Values`lastTouched
      ensures Is(RaiseSeq(v, sessionID, seqNo, now))
      ensures advanced == Advances(v, sessionID, seqNo)
    {
      if sessionID !in m {
        return false;
      }
      advanced := m[sessionID].RaiseLastSeq(seqNo, now);
    }

    method RestoreLastSeq(sessionID: string, n: int, now: nat, ghost v: RegVal)
      requires Is(v)
      modifies m.Values`lastSeq, m.Values`lastTouched
      ensures Is(RaiseSeq(v, sessionID, n, now))
    {
      if sessionID in m {
        var _ := m[sessionID].RaiseLastSeq(n, now);
      }
    }

    method SetState(sessionID: string, state: Status, now: nat, ghost v: RegVal)
      requires Is(v)
      modifies m.Values`state, m.Values`lastTouched
      ensures Is(RegistrySpec.SetState(v, sessionID, state, now))
    {
      if sessionID in m {
        m[sessionID].state := state;
        m[sessionID].lastTouched := now;
      }
    }

    method MarkEnded(sessionID: string, now: nat, ghost v: RegVal)
      requires Is(v)
      modifies m.Values`state, m.Values`ended, m.Values`endedAt, m.Values`lastTouched
      ensures Is(RegistrySpec.MarkEnded(v, sessionID, now))
    {
      if sessionID in m {
        m[sessionID].End(now);
      }
    }

    // The same operations, keeping rings and clients.

    method AdvanceSeqHeld(id: string, seqNo: int, now: nat, ghost v: RegVal,
                          ghost members: map<string, set<ClientConn>>, ghost cs: set<ClientConn>)
      returns (advanced: bool)
      requires Is(v) && RingsOk() && ClientsHeld(members, cs)
      modifies m.Values`lastSeq, m.Values`lastTouched
      ensures Is(RaiseSeq(v, id, seqNo, now)) && RingsOk() && ClientsHeld(members, cs)
      ensures advanced == Advances(v, id, seqNo)
      ensures SessionRings() == old(SessionRings()) && SessionSlices() == old(SessionSlices())
      ensures CallsOf(cs) == old(CallsOf(cs))
      ensures Repr == old(Repr)
    {
      advanced := AdvanceSeq(id, seqNo, now, v);
      assert RingsOk() == old(RingsOk());
      assert ClientsHeld(members, cs) == old(ClientsHeld(members, cs));
    }

    method MarkEndedHeld(id: string, now: nat, ghost v: RegVal, ghost members: map<string, set<ClientConn>>,
                         ghost cs: set<ClientConn>)
      requires Is(v) && RingsOk() && ClientsHeld(members, cs)
      modifies m.Values`state, m.Values`ended, m.Values`endedAt, m.Values`lastTouched
      ensures Is(RegistrySpec.MarkEnded(v, id, now)) && RingsOk() && ClientsHeld(members, cs)
      ensures CallsOf(cs) == old(CallsOf(cs))
    {
      MarkEnded(id, now, v);
      assert RingsOk() == old(RingsOk());
      assert ClientsHeld(members, cs) == old(ClientsHeld(members, cs));
    }

    method SetStateHeld(id: string, state: Status, now: nat, ghost v: RegVal,
                        ghost members: map<string, set<ClientConn>>, ghost cs: set<ClientConn>)
      requires Is(v) && RingsOk() && ClientsHeld(members, cs)
      modifies m.Values`state, m.Values`lastTouched
      ensures Is(RegistrySpec.SetState(v, id, state, now)) && RingsOk() && ClientsHeld(members, cs)
      ensures CallsOf(cs) == old(CallsOf(cs))
    {
      SetState(id, state, now, v);
      assert RingsOk() == old(RingsOk());
      assert ClientsHeld(members, cs) == old(ClientsHeld(members, cs));
    }

    method RestoreHeld(id: string, n: int, now: nat, ghost v: RegVal, ghost members: map<string, set<ClientConn>>,
                       ghost cs: set<ClientConn>)
      requires Is(v) && RingsOk() && ClientsHeld(members, cs)
      modifies m.Values`lastSeq, m.Values`lastTouched
      ensures Is(RaiseSeq(v, id, n, now)) && RingsOk() && ClientsHeld(members, cs)
      ensures CallsOf(cs) == old(CallsOf(cs))
    {
      RestoreLastSeq(id, n, now, v);
      assert RingsOk() == old(RingsOk());
      assert ClientsHeld(members, cs) == old(ClientsHeld(members, cs));
    }

    method Fan(id: string, raw: seq<byte>, ghost members: map<string, set<ClientConn>>, ghost cs: set<ClientConn>)
      requires ClientsHeld(members, cs) && id in m
      modifies cs`calls, cs`queue
      ensures Holds() == old(Holds())
      ensures CallsOf(cs) == WithSent(old(CallsOf(cs)), members[id], Control(raw))
    {
      m[id].FanOut(Control(raw), cs);
    }

    /** Broadcast a control frame: each client of the session is told, and no other one. */
    method Tell(id: string, raw: seq<byte>, ghost v: RegVal, ghost members: map<string, set<ClientConn>>,
                ghost cs: set<ClientConn>)
      requires Is(v) && RingsOk() && ClientsHeld(members, cs) && id in m
      modifies cs`calls, cs`queue
      ensures Is(v) && RingsOk() && ClientsHeld(members, cs)
      ensures CallsOf(cs) == WithSent(old(CallsOf(cs)), members[id], Control(raw))
    {
      Fan(id, raw, members, cs);
      assert RingsOk() == old(RingsOk());
      assert ClientsHeld(members, cs) == old(ClientsHeld(members, cs));
    }

    /** `items` lists the registered sessions' rings in the given order. */
    ghost predicate Lists(items: seq<LruBalancer.LRUItem>, order: seq<string>)
      reads `m
    {
      && Enumerates(order, m.Keys) && |items| == |order|
      && forall i :: 0 <= i < |items| ==> order[i] in m && items[i].ring == m[order[i]].ring
    }

    /** The items made so far, one for each session not in `left`. */
    ghost predicate Itemized(items: seq<LruBalancer.LRUItem>, order: seq<string>, left: set<string>)
      reads `m, m.Values`ended, m.Values`lastTouched
    {
      && left <= m.Keys && |items| == |order|
      && (forall i, j :: 0 <= i < j < |order| ==> order[i] != order[j])
      && (forall i :: 0 <= i < |order| ==> order[i] in m && order[i] !in left)
      && (forall id :: id in m ==> id in left || id in order)
      && (forall i :: 0 <= i < |items| ==>
            items[i] == LruBalancer.LRUItem(order[i], m[order[i]].ended, m[order[i]].lastTouched, m[order[i]].ring))
    }

    lemma ItemizedNext(items: seq<LruBalancer.LRUItem>, order: seq<string>, left: set<string>, id: string)
      requires Itemized(items, order, left) && id in left
      ensures Itemized(items + [LruBalancer.LRUItem(id, m[id].ended, m[id].lastTouched, m[id].ring)],
                       order + [id], left - {id})
    {
    }

    /** One item per registered session, in the arbitrary order of the map iteration. */
    method LRUItems(ghost v: RegVal) returns (items: seq<LruBalancer.LRUItem>, ghost order: seq<string>)
      requires Is(v)
      ensures Lists(items, order)
      ensures LruBalancer.Values(items) == Items(v.m, order)
    {
      items, order := [], [];
      var left := m.Keys;
      while left != {}
        invariant Itemized(items, order, left)
        decreases left
      {
        var id :| id in left;
        ItemizedNext(items, order, left, id);
        left := left - {id};
        var s := m[id];
        items := items + [LruBalancer.LRUItem(s.sessionID, s.ended, s.lastTouched, s.ring)];
        order := order + [id];
      }
      ListedValues(v, items, order);
    }

    lemma ListedValues(v: RegVal, items: seq<LruBalancer.LRUItem>, order: seq<string>)
      requires Is(v) && Lists(items, order)
      requires forall i :: 0 <= i < |items| ==>
        items[i] == LruBalancer.LRUItem(order[i], m[order[i]].ended, m[order[i]].lastTouched, m[order[i]].ring)
      ensures LruBalancer.Values(items) == Items(v.m, order)
    {
      forall i | 0 <= i < |items| ensures LruBalancer.ItemOf(items[i]) == ItemFor(order[i], v.m[order[i]]) {
        assert ValueOf(m[order[i]]) == v.m[order[i]];
      }
    }

    lemma ListedRingsOk(items: seq<LruBalancer.LRUItem>, order: seq<string>)
      requires Lists(items, order) && RingsOk()
      ensures LruBalancer.ValidItems(items)
      ensures forall r :: r in LruBalancer.Rings(items) ==> r in SessionRings()
    {
      forall i | 0 <= i < |items| ensures items[i].ring.Valid() {
        assert m[order[i]].ring.Valid();
      }
    }

    lemma RingsOkFromList(items: seq<LruBalancer.LRUItem>, order: seq<string>)
      requires Lists(items, order) && LruBalancer.ValidItems(items)
      requires forall id :: id in m ==> m[id] in Repr && m[id].ring in Repr && m[id].ring.entries in Repr
      requires forall a, b {:trigger m[a].ring, m[b].ring} :: a in m && b in m && a != b ==>
                 m[a].ring != m[b].ring && m[a].ring.entries != m[b].ring.entries
      ensures RingsOk()
    {
      forall id | id in m ensures m[id].ring.Valid() {
        var i := IndexOf(order, id);
        assert items[i].ring == m[id].ring;
      }
    }

    /** The sessions hold `h`, but for what their rings hold. */
    ghost predicate HoldsBut(h: map<string, SessionVal>)
      reads `m, m.Values`state, m.Values`lastSeq, m.Values`ended, m.Values`lastTouched
      reads SessionRings()`live, SessionRings()`maxBytes, SessionRings()`earliestSeq, SessionRings()`latestSeq
      reads SessionRings()`history
    {
      h.Keys == m.Keys && forall id :: id in m ==> ValueOf(m[id]) == h[id].(ring := m[id].ring.Value())
    }

    /** When the rings now hold `r` and nothing else changed, the registry holds `v` with those rings. */
    lemma HoldsRings(v: RegVal, items: seq<LruBalancer.LRUItem>, order: seq<string>, r: seq<Item>)
      requires Lists(items, order) && LruBalancer.Values(items) == r && HoldsBut(v.m)
      requires v.cap == totalCacheBytes > 0 && v.floor == sessionCacheFloorBytes > 0 && v.epochs == epochs
      requires forall id :: id in m ==> m[id].sessionID == id
      ensures |r| == |order| && Is(v.(m := WithRings(v.m, order, r)))
    {
      forall id | id in m ensures m[id].ring.Value() == r[IndexOf(order, id)].ring {
        var i := IndexOf(order, id);
        assert items[i].ring == m[id].ring;
      }
    }

    method Rebalance(active: string, f: Scale, ghost v: RegVal, ghost members: map<string, set<ClientConn>>,
                     ghost cs: set<ClientConn>)
      returns (ghost order: seq<string>)
      requires Is(v) && RingsOk() && ClientsHeld(members, cs)
      modifies SessionRings()
      ensures Enumerates(order, v.m.Keys) && RingsOk() && ClientsHeld(members, cs)
      ensures unchanged(`m) && Repr == old(Repr)
      ensures CallsOf(cs) == old(CallsOf(cs))
      ensures Is(RegistrySpec.Rebalance(v, active, order, f))
    {
      order := RebalanceRings(active, f, v);
      assert ClientsHeld(members, cs) == old(ClientsHeld(members, cs));
    }

    method RebalanceRings(active: string, f: Scale, ghost v: RegVal) returns (ghost order: seq<string>)
      requires Is(v) && RingsOk()
      modifies SessionRings()`maxBytes, SessionRings()`bytes, SessionRings()`tail
      modifies SessionRings()`earliestSeq, SessionRings()`live
      ensures Enumerates(order, v.m.Keys) && RingsOk()
      ensures Is(RegistrySpec.Rebalance(v, active, order, f))
    {
      var items;
      items, order := LRUItems(v);
      BalanceHolding(items, order, active, f, v);
    }

    method BalanceHolding(items: seq<LruBalancer.LRUItem>, ghost order: seq<string>, active: string, f: Scale,
                          ghost v: RegVal)
      requires Is(v) && RingsOk() && Lists(items, order) && LruBalancer.Values(items) == Items(v.m, order)
      modifies SessionRings()`maxBytes, SessionRings()`bytes, SessionRings()`tail
      modifies SessionRings()`earliestSeq, SessionRings()`live
      ensures RingsOk()
      ensures Is(RegistrySpec.Rebalance(v, active, order, f))
    {
      BalanceBut(items, order, active, f);
      HoldsRings(v, items, order, LruBalancer.Values(items));
    }

    method BalanceBut(items: seq<LruBalancer.LRUItem>, ghost order: seq<string>, active: string, f: Scale)
      requires RingsOk() && Lists(items, order) && totalCacheBytes > 0 && sessionCacheFloorBytes > 0
      modifies SessionRings()`maxBytes, SessionRings()`bytes, SessionRings()`tail
      modifies SessionRings()`earliestSeq, SessionRings()`live
      ensures RingsOk() && HoldsBut(old(Holds()))
      ensures LruBalancer.Values(items) ==
        BalanceSpec(old(LruBalancer.Values(items)), active, totalCacheBytes, sessionCacheFloorBytes, f)
    {
      BalanceListed(items, order, active, f);
    }

    method BalanceListed(items: seq<LruBalancer.LRUItem>, ghost order: seq<string>, active: string, f: Scale)
      requires RingsOk() && Lists(items, order) && totalCacheBytes > 0 && sessionCacheFloorBytes > 0
      modifies SessionRings()`maxBytes, SessionRings()`bytes, SessionRings()`tail
      modifies SessionRings()`earliestSeq, SessionRings()`live
      ensures RingsOk()
      ensures LruBalancer.Values(items) ==
        BalanceSpec(old(LruBalancer.Values(items)), active, totalCacheBytes, sessionCacheFloorBytes, f)
    {
      ListedRingsOk(items, order);
      LruBalancer.BalanceGlobalLRU(items, active, totalCacheBytes, sessionCacheFloorBytes, f);
      RingsOkFromList(items, order);
    }

    /** No two of the sessions share a ring or a slice, and all of these are among `parts`. */
    static ghost predicate Apart(ss: map<string, Session>, slices: map<string, array<Entry>>, parts: set<object>) {
      && slices.Keys == ss.Keys
      && (forall k :: k in ss ==> ss[k] in parts && ss[k].ring in parts && slices[k] in parts)
      && (forall a, b {:trigger ss[a].ring, ss[b].ring} :: a in ss && b in ss && a != b ==> ss[a].ring != ss[b].ring)
      && (forall a, b :: a in ss && b in ss && a != b ==> slices[a] != slices[b])
    }

    /** The ring of `id` may have a new slice, which is nobody else's; the others are as in `slices`. */
    ghost predicate OneGrown(id: string, slices: map<string, array<Entry>>)
      reads `m, SessionRings(), SessionSlices()
    {
      && id in m && slices.Keys == m.Keys && m[id].ring.Valid()
      && forall k :: k in m && k != id ==>
           m[k].ring.Valid() && m[k].ring.entries == slices[k] && m[k].ring.entries != m[id].ring.entries
    }

    lemma RingsOkAround(id: string, slices: map<string, array<Entry>>, parts: set<object>)
      requires OneGrown(id, slices) && Apart(m, slices, parts) && parts <= Repr && m[id].ring.entries in Repr
      ensures RingsOk()
    {
    }

    lemma PartsApart(slices: map<string, array<Entry>>)
      requires RingsOk() && slices == map k | k in m :: m[k].ring.entries
      ensures Apart(m, slices, Repr)
    {
      forall a, b | a in m && b in m && a != b ensures slices[a] != slices[b] {
        assert m[a].ring != m[b].ring;
      }
    }

    /** Session.Publish inside the registry: the other rings are not touched. */
    method PublishSession(sessionID: string, entry: Entry, now: nat, ghost mine: set<ClientConn>,
                          ghost cs: set<ClientConn>)
      requires RingsOk() && sessionID in m && m[sessionID].ClientsById()
      requires mine == m[sessionID].attachedClients.Values && mine <= cs
      modifies m[sessionID].ring, m[sessionID].ring.entries, mine`calls, mine`queue
      ensures m[sessionID].ring.Valid()
      ensures m[sessionID].ring.entries == old(m[sessionID].ring.entries) || fresh(m[sessionID].ring.entries)
      ensures m[sessionID].ring.Value() == Append(old(m[sessionID].ring.Value()), entry)
      ensures forall k :: k in m && k != sessionID ==>
        && m[k].ring.Valid() && m[k].ring.Value() == old(m[k].ring.Value())
        && m[k].ring.entries == old(m[k].ring.entries) && m[k].ring.entries != m[sessionID].ring.entries
      ensures CallsOf(cs) == WithSent(old(CallsOf(cs)), mine, Data(entry))
      ensures unchanged(`m) && Repr == old(Repr)
    {
      assert m[sessionID].ring.Valid();
      forall k | k in m ensures m[k].ring.Valid() {
      }
      m[sessionID].Publish(entry, now, cs);
    }

    method PublishGrown(sessionID: string, entry: Entry, now: nat, ghost slices: map<string, array<Entry>>,
                        ghost mine: set<ClientConn>, ghost cs: set<ClientConn>)
      requires RingsOk() && sessionID in m && m[sessionID].ClientsById()
      requires mine == m[sessionID].attachedClients.Values && mine <= cs
      requires slices.Keys == m.Keys && forall k :: k in m ==> slices[k] == m[k].ring.entries
      modifies m[sessionID].ring, m[sessionID].ring.entries, mine`calls, mine`queue
      ensures OneGrown(sessionID, slices) && unchanged(`m) && Repr == old(Repr)
      ensures m[sessionID].ring.entries == slices[sessionID] || fresh(m[sessionID].ring.entries)
      ensures m[sessionID].ring.Value() == Append(old(m[sessionID].ring.Value()), entry)
      ensures forall k :: k in m && k != sessionID ==> m[k].ring.Value() == old(m[k].ring.Value())
      ensures CallsOf(cs) == WithSent(old(CallsOf(cs)), mine, Data(entry))
    {
      PublishSession(sessionID, entry, now, mine, cs);
    }

    ghost method Adopt(id: string, slices: map<string, array<Entry>>) returns (made: set<object>)
      requires OneGrown(id, slices) && Apart(m, slices, Repr)
      modifies `Repr
      ensures RingsOk() && Repr == old(Repr) + made && unchanged(`m)
      ensures made == if m[id].ring.entries == slices[id] then {} else {m[id].ring.entries}
    {
      made := if m[id].ring.entries == slices[id] then {} else {m[id].ring.entries};
      Repr := Repr + made;
      RingsOkAround(id, slices, old(Repr));
    }

    method PublishParts(sessionID: string, entry: Entry, now: nat, ghost mine: set<ClientConn>,
                        ghost cs: set<ClientConn>)
      returns (ghost made: set<object>)
      requires RingsOk() && sessionID in m && m[sessionID].ClientsById()
      requires mine == m[sessionID].attachedClients.Values && mine <= cs
      modifies `Repr, m[sessionID].ring, m[sessionID].ring.entries, mine`calls, mine`queue
      ensures RingsOk()
      ensures Repr == old(Repr) + made && fresh(made) && unchanged(`m)
      ensures m[sessionID].ring.Value() == Append(old(m[sessionID].ring.Value()), entry)
      ensures forall k :: k in m && k != sessionID ==> m[k].ring.Value() == old(m[k].ring.Value())
      ensures CallsOf(cs) == WithSent(old(CallsOf(cs)), mine, Data(entry))
    {
      ghost var slices := map k | k in m :: m[k].ring.entries;
      PartsApart(slices);
      PublishGrown(sessionID, entry, now, slices, mine, cs);
      made := Adopt(sessionID, slices);
    }

    method AppendValue(sessionID: string, entry: Entry, now: nat, ghost mine: set<ClientConn>,
                       ghost cs: set<ClientConn>)
      returns (ghost made: set<object>)
      requires RingsOk() && sessionID in m && m[sessionID].ClientsById()
      requires mine == m[sessionID].attachedClients.Values && mine <= cs
      modifies `Repr, m[sessionID].ring, m[sessionID].ring.entries, mine`calls, mine`queue
      ensures RingsOk()
      ensures Holds() ==
        old(Holds())[sessionID := old(Holds())[sessionID].(ring := Append(old(Holds())[sessionID].ring, entry))]
      ensures CallsOf(cs) == WithSent(old(CallsOf(cs)), mine, Data(entry))
      ensures Repr == old(Repr) + made && fresh(made) && unchanged(`m)
    {
      ghost var before := Holds();
      made := PublishParts(sessionID, entry, now, mine, cs);
      forall k | k in m ensures ValueOf(m[k]) == before[k].(ring := m[k].ring.Value()) {
        assert before[k] == old(ValueOf(m[k]));
      }
      HoldsOneRing(before, sessionID, Append(before[sessionID].ring, entry));
    }

    lemma HoldsOneRing(before: map<string, SessionVal>, id: string, w: Window)
      requires id in m && HoldsBut(before) && m[id].ring.Value() == w
      requires forall k :: k in m && k != id ==> m[k].ring.Value() == before[k].ring
      ensures Holds() == before[id := before[id].(ring := w)]
    {
      forall k | k in m ensures Holds()[k] == before[id := before[id].(ring := w)][k] {
        assert Holds()[k] == ValueOf(m[k]);
      }
    }

    method AppendClients(sessionID: string, entry: Entry, now: nat, ghost h: map<string, SessionVal>,
                         ghost w: SessionVal, ghost members: map<string, set<ClientConn>>, ghost cs: set<ClientConn>)
      returns (ghost made: set<object>)
      requires RingsOk() && sessionID in m && ClientsHeld(members, cs) && Holds() == h
      requires w == h[sessionID].(ring := Append(h[sessionID].ring, entry))
      modifies `Repr, m[sessionID].ring, m[sessionID].ring.entries, cs`calls, cs`queue
      ensures RingsOk() && ClientsHeld(members, cs) && Holds() == h[sessionID := w]
      ensures CallsOf(cs) == WithSent(old(CallsOf(cs)), members[sessionID], Data(entry))
      ensures Repr == old(Repr) + made && fresh(made) && unchanged(`m)
    {
      made := AppendValue(sessionID, entry, now, members[sessionID], cs);
      assert ClientsHeld(members, cs) == old(ClientsHeld(members, cs));
    }

    method AppendIn(sessionID: string, entry: Entry, now: nat, ghost v: RegVal, ghost w: SessionVal,
                    ghost members: map<string, set<ClientConn>>, ghost cs: set<ClientConn>)
      returns (ghost made: set<object>)
      requires Is(v) && RingsOk() && sessionID in m && ClientsHeld(members, cs)
      requires w == v.m[sessionID].(ring := Append(v.m[sessionID].ring, entry))
      modifies `Repr, m[sessionID].ring, m[sessionID].ring.entries, cs`calls, cs`queue
      ensures RingsOk() && ClientsHeld(members, cs) && Is(v.(m := v.m[sessionID := w]))
      ensures CallsOf(cs) == WithSent(old(CallsOf(cs)), members[sessionID], Data(entry))
      ensures Repr == old(Repr) + made && fresh(made) && unchanged(`m)
    {
      made := AppendClients(sessionID, entry, now, v.m, w, members, cs);
    }

    method TouchValue(id: string, now: nat, ghost v: RegVal)
      requires Is(v) && id in m
      modifies {m[id]}`lastTouched
      ensures Is(v.(m := v.m[id := v.m[id].(touched := now)]))
    {
      m[id].lastTouched := now;
    }

    method TouchRings(id: string, now: nat, ghost v: RegVal)
      requires Is(v) && RingsOk() && id in m
      modifies {m[id]}`lastTouched
      ensures Is(v.(m := v.m[id := v.m[id].(touched := now)])) && RingsOk()
    {
      TouchValue(id, now, v);
      assert RingsOk() == old(RingsOk());
    }

    method Touch(id: string, now: nat, ghost v: RegVal, ghost members: map<string, set<ClientConn>>,
                 ghost cs: set<ClientConn>)
      requires Is(v) && RingsOk() && ClientsHeld(members, cs) && id in m
      modifies {m[id]}`lastTouched
      ensures Is(v.(m := v.m[id := v.m[id].(touched := now)])) && RingsOk() && ClientsHeld(members, cs)
      ensures CallsOf(cs) == old(CallsOf(cs))
    {
      TouchRings(id, now, v);
      assert ClientsHeld(members, cs) == old(ClientsHeld(members, cs));
    }

    lemma TouchedTwice(v: RegVal, id: string, w: SessionVal, now: nat)
      requires id in v.m
      ensures var v1 := v.(m := v.m[id := w]);
              v1.(m := v1.m[id := v1.m[id].(touched := now)]) == v.(m := v.m[id := w.(touched := now)])
    {
    }

    method AppendTouched(sessionID: string, entry: Entry, now: nat, ghost v: RegVal, ghost w: SessionVal,
                         ghost members: map<string, set<ClientConn>>, ghost cs: set<ClientConn>)
      returns (ghost made: set<object>)
      requires Is(v) && RingsOk() && sessionID in m && ClientsHeld(members, cs)
      requires w == v.m[sessionID].(ring := Append(v.m[sessionID].ring, entry))
      modifies `Repr, {m[sessionID]}`lastTouched, m[sessionID].ring, m[sessionID].ring.entries, cs`calls, cs`queue
      ensures RingsOk() && ClientsHeld(members, cs) && Is(v.(m := v.m[sessionID := w.(touched := now)]))
      ensures CallsOf(cs) == WithSent(old(CallsOf(cs)), members[sessionID], Data(entry))
      ensures Repr == old(Repr) + made && fresh(made) && unchanged(`m)
    {
      made := AppendIn(sessionID, entry, now, v, w, members, cs);
      TouchedTwice(v, sessionID, w, now);
      Touch(sessionID, now, v.(m := v.m[sessionID := w]), members, cs);
    }

    /** Append, fan out, touch and balance, with `v1` the value between touching and balancing. */
    method AppendBalanced(sessionID: string, entry: Entry, now: nat, f: Scale, ghost v: RegVal, ghost v1: RegVal,
                          ghost members: map<string, set<ClientConn>>, ghost cs: set<ClientConn>)
      returns (ghost order: seq<string>, ghost made: set<object>)
      requires Is(v) && RingsOk() && sessionID in m && ClientsHeld(members, cs)
      requires v1 == AppendTo(v, sessionID, entry, now)
      modifies `Repr, m.Values`lastTouched, SessionRings(), SessionSlices(), cs`calls, cs`queue
      ensures RingsOk() && ClientsHeld(members, cs)
      ensures v1.floor >= 0 && Enumerates(order, v1.m.Keys) && Is(RegistrySpec.Rebalance(v1, sessionID, order, f))
      ensures CallsOf(cs) == WithSent(old(CallsOf(cs)), members[sessionID], Data(entry))
      ensures Repr == old(Repr) + made && fresh(made) && unchanged(`m)
    {
      ghost var w := v.m[sessionID].(ring := Append(v.m[sessionID].ring, entry));
      made := AppendTouched(sessionID, entry, now, v, w, members, cs);
      order := Rebalance(sessionID, f, v1, members, cs);
    }

    method PublishKnown(sessionID: string, entry: Entry, now: nat, f: Scale, ghost v: RegVal,
                        ghost members: map<string, set<ClientConn>>, ghost cs: set<ClientConn>)
      returns (ghost order: seq<string>, ghost made: set<object>)
      requires Is(v) && RingsOk() && sessionID in m && ClientsHeld(members, cs)
      modifies `Repr, m.Values`lastTouched, SessionRings(), SessionSlices(), cs`calls, cs`queue
      ensures RingsOk() && ClientsHeld(members, cs) && Enumerates(order, v.m.Keys)
      ensures Is(RegistrySpec.Publish(v, sessionID, entry, now, order, f))
      ensures CallsOf(cs) == WithSent(old(CallsOf(cs)), members[sessionID], Data(entry))
      ensures Repr == old(Repr) + made && fresh(made) && unchanged(`m)
    {
      order, made := AppendBalanced(sessionID, entry, now, f, v, AppendTo(v, sessionID, entry, now), members, cs);
    }

    /** Append, fan out to the session's clients, touch, rebalance. `order` is the iteration
        order LRUItems happened to use. */
    method Publish(sessionID: string, entry: Entry, now: nat, f: Scale, ghost v: RegVal,
                   ghost members: map<string, set<ClientConn>>, ghost cs: set<ClientConn>)
      returns (ghost order: seq<string>, ghost made: set<object>)
      requires Is(v) && RingsOk() && ClientsHeld(members, cs)
      modifies `Repr, m.Values`lastTouched, SessionRings(), SessionSlices(), cs`calls, cs`queue
      ensures RingsOk() && ClientsHeld(members, cs) && Enumerates(order, v.m.Keys)
      ensures Is(RegistrySpec.Publish(v, sessionID, entry, now, order, f))
      ensures CallsOf(cs) ==
        if sessionID in m then WithSent(old(CallsOf(cs)), members[sessionID], Data(entry)) else old(CallsOf(cs))
      ensures Repr == old(Repr) + made && fresh(made) && unchanged(`m)
    {
      if sessionID !in m {
        order, made := Listing(v.m.Keys), {};
        return;
      }
      order, made := PublishKnown(sessionID, entry, now, f, v, members, cs);
    }

    method PauseAndTell(id: string, raw: seq<byte>, now: nat, ghost v: RegVal,
                        ghost members: map<string, set<ClientConn>>, ghost cs: set<ClientConn>)
      requires Is(v) && RingsOk() && ClientsHeld(members, cs) && id in m
      modifies m.Values`state, m.Values`lastTouched, cs`calls, cs`queue
      ensures Is(RegistrySpec.SetState(v, id, Paused, now)) && RingsOk() && ClientsHeld(members, cs)
      ensures CallsOf(cs) == WithSent(old(CallsOf(cs)), members[id], Control(raw))
    {
      SetStateHeld(id, Paused, now, v, members, cs);
      Tell(id, raw, RegistrySpec.SetState(v, id, Paused, now), members, cs);
    }

    lemma HoldsAt(v: RegVal, id: string)
      requires Is(v) && id in m
      ensures id in v.m && ValueOf(m[id]) == v.m[id]
    {
    }

    method PauseOne(id: string, machineID: string, now: nat, frame: Status -> seq<byte>, ghost v: RegVal,
                    ghost members: map<string, set<ClientConn>>, ghost cs: set<ClientConn>)
      requires Is(v) && RingsOk() && ClientsHeld(members, cs) && id in m
      modifies m.Values`state, m.Values`lastTouched, cs`calls, cs`queue
      ensures id in v.m && Is(RegistrySpec.PauseOne(v, id, machineID, now))
      ensures RingsOk() && ClientsHeld(members, cs)
      ensures CallsOf(cs) == PauseCall(old(CallsOf(cs)), v.m[id], members[id], machineID, frame)
    {
      var s := m[id];
      HoldsAt(v, id);
      if s.machineID != machineID || s.ended || s.state == Paused {
        assert RegistrySpec.PauseOne(v, id, machineID, now) == v;
        return;
      }
      assert RegistrySpec.PauseOne(v, id, machineID, now) == RegistrySpec.SetState(v, id, Paused, now);
      PauseAndTell(id, frame(s.state), now, v, members, cs);
    }

    /** The loop half way: the sessions of `order` have been looked at. */
    ghost predicate Pausing(v: RegVal, order: seq<string>, left: set<string>, calls: map<ClientConn, seq<Frame>>,
                            members: map<string, set<ClientConn>>, machineID: string, now: nat,
                            frame: Status -> seq<byte>, cs: set<ClientConn>)
      reads this, m.Values, SessionRings(), SessionSlices(), cs`calls
    {
      && Walked(v, order, left) && v.m.Keys == m.Keys && ClientsHeld(members, cs)
      && Is(PauseEach(v, order, machineID, now)) && RingsOk()
      && CallsOf(cs) == PauseCalls(calls, v, order, members, machineID, frame)
    }

    method PauseNext(left: set<string>, machineID: string, now: nat, frame: Status -> seq<byte>,
                     ghost order: seq<string>, ghost v: RegVal, ghost calls: map<ClientConn, seq<Frame>>,
                     ghost members: map<string, set<ClientConn>>, ghost cs: set<ClientConn>)
      returns (left': set<string>, ghost order': seq<string>)
      requires left != {} && Pausing(v, order, left, calls, members, machineID, now, frame, cs)
      modifies m.Values`state, m.Values`lastTouched, cs`calls, cs`queue
      ensures left' < left && Pausing(v, order', left', calls, members, machineID, now, frame, cs)
    {
      var id :| id in left;
      PauseEachAt(v, order, machineID, now);
      PauseOne(id, machineID, now, frame, PauseEach(v, order, machineID, now), members, cs);
      WalkedNext(v, calls, order, left, id, members, machineID, now, frame);
      left', order' := left - {id}, order + [id];
    }

    /** Pause every live session of the machine, one after another in map order, and tell its
        clients: each is sent one frame for each paused session it is attached to. */
    method PauseAllForMachine(machineID: string, now: nat, frame: Status -> seq<byte>, ghost v: RegVal,
                              ghost members: map<string, set<ClientConn>>, ghost cs: set<ClientConn>)
      returns (ghost order: seq<string>)
      requires Is(v) && RingsOk() && ClientsHeld(members, cs)
      modifies m.Values`state, m.Values`lastTouched, cs`calls, cs`queue
      ensures Enumerates(order, v.m.Keys)
      ensures Is(RegistrySpec.PauseAllForMachine(v, machineID, now)) && RingsOk() && ClientsHeld(members, cs)
      ensures CallsOf(cs) == PauseCalls(old(CallsOf(cs)), v, order, members, machineID, frame)
    {
      order := [];
      var left := m.Keys;
      ghost var calls := CallsOf(cs);
      while left != {}
        invariant Pausing(v, order, left, calls, members, machineID, now, frame, cs)
        decreases left
      {
        left, order := PauseNext(left, machineID, now, frame, order, v, calls, members, cs);
      }
      PauseEachAll(v, order, machineID, now);
    }
  }

  /** `order` lists the sessions not in `left`. */
  ghost predicate Walked(v: RegVal, order: seq<string>, left: set<string>) {
    && left <= v.m.Keys
    && (forall i, j :: 0 <= i < j < |order| ==> order[i] != order[j])
    && (forall id :: id in order <==> id in v.m && id !in left)
  }

  /** The Send calls after one session has been looked at: its clients are told if it was paused. */
  ghost function PauseCall(calls: map<ClientConn, seq<Frame>>, s: SessionVal, members: set<ClientConn>,
                           machineID: string, frame: Status -> seq<byte>): map<ClientConn, seq<Frame>>
  {
    if Pausable(s, machineID) then WithSent(calls, members, Control(frame(s.state))) else calls
  }

  /** The same for the sessions of `order` in turn. */
  ghost function PauseCalls(calls: map<ClientConn, seq<Frame>>, v: RegVal, order: seq<string>,
                            members: map<string, set<ClientConn>>, machineID: string, frame: Status -> seq<byte>)
    : map<ClientConn, seq<Frame>>
  {
    if order == [] then calls
    else
      var before, id := PauseCalls(calls, v, order[..|order| - 1], members, machineID, frame), order[|order| - 1];
      if id in v.m && id in members then PauseCall(before, v.m[id], members[id], machineID, frame) else before
  }

  lemma WalkedNext(v: RegVal, calls: map<ClientConn, seq<Frame>>, order: seq<string>, left: set<string>, id: string,
                   members: map<string, set<ClientConn>>, machineID: string, now: nat, frame: Status -> seq<byte>)
    requires Walked(v, order, left) && id in left && id in members
    ensures Walked(v, order + [id], left - {id})
    ensures PauseEach(v, order + [id], machineID, now) ==
            RegistrySpec.PauseOne(PauseEach(v, order, machineID, now), id, machineID, now)
    ensures PauseCalls(calls, v, order + [id], members, machineID, frame) ==
            PauseCall(PauseCalls(calls, v, order, members, machineID, frame), v.m[id], members[id], machineID, frame)
  {
    assert (order + [id])[..|order|] == order;
  }

  ghost function Listing(ids: set<string>): (order: seq<string>)
    ensures Enumerates(order, ids)
  {
    if ids == {} then []
    else
      var id :| id in ids;
      [id] + Listing(ids - {id})
  }
}
