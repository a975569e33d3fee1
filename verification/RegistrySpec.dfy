/**
 The coordinator's session registry as a value, one function per operation, and what every run
 of these operations keeps: the global cache budget, the per-ring budgets and the order of
 sequence numbers.
 */
module RegistrySpec {
  import opened Base
  import opened Ring
  import opened Balance
  import opened BalanceProps

  datatype SessionVal = SessionVal(
    machineID: string, state: Status, lastSeq: int, ended: bool, touched: nat, ring: Window,
    epoch: nat)   // which registration created the session object

  datatype RegVal = RegVal(m: map<string, SessionVal>, cap: int, floor: int, epochs: nat)

  function InitialRingMaxBytes(cap: int, floor: int): int {
    if cap / 10 < floor then floor else cap / 10
  }

  function Register(v: RegVal, id: string, machineID: string, now: nat): RegVal {
    var s := SessionVal(machineID, Running, 0, false, now, NewWindow(InitialRingMaxBytes(v.cap, v.floor)), v.epochs);
    v.(m := v.m[id := s], epochs := v.epochs + 1)
  }

  predicate Advances(v: RegVal, id: string, seqNo: int) {
    id in v.m && seqNo > v.m[id].lastSeq
  }

  /** AdvanceSeq and RestoreLastSeq both raise LastSeq to a greater number and ignore others. */
  function RaiseSeq(v: RegVal, id: string, seqNo: int, now: nat): RegVal {
    if Advances(v, id, seqNo) then v.(m := v.m[id := v.m[id].(lastSeq := seqNo, touched := now)]) else v
  }

  function SetState(v: RegVal, id: string, state: Status, now: nat): RegVal {
    if id in v.m then v.(m := v.m[id := v.m[id].(state := state, touched := now)]) else v
  }

  function MarkEnded(v: RegVal, id: string, now: nat): RegVal {
    if id in v.m then v.(m := v.m[id := v.m[id].(ended := true, state := Ended, touched := now)]) else v
  }

  /** A client attaches to the session or leaves it. */
  function Touch(v: RegVal, id: string, now: nat): RegVal {
    if id in v.m then v.(m := v.m[id := v.m[id].(touched := now)]) else v
  }

  predicate Pausable(s: SessionVal, machineID: string) {
    s.machineID == machineID && !s.ended && s.state != Paused
  }

  function PauseOne(v: RegVal, id: string, machineID: string, now: nat): RegVal {
    if id in v.m && Pausable(v.m[id], machineID)
    then v.(m := v.m[id := v.m[id].(state := Paused, touched := now)]) else v
  }

  function PauseAllForMachine(v: RegVal, machineID: string, now: nat): RegVal {
    v.(m := map id | id in v.m :: PauseOne(v, id, machineID, now).m[id])
  }

  /** The sessions of `order` looked at one after another. */
  function PauseEach(v: RegVal, order: seq<string>, machineID: string, now: nat): RegVal {
    if order == [] then v
    else PauseOne(PauseEach(v, order[..|order| - 1], machineID, now), order[|order| - 1], machineID, now)
  }

  lemma {:induction false} PauseEachAt(v: RegVal, order: seq<string>, machineID: string, now: nat)
    requires forall i, j :: 0 <= i < j < |order| ==> order[i] != order[j]
    ensures var w := PauseEach(v, order, machineID, now);
            && w == v.(m := w.m) && w.m.Keys == v.m.Keys
            && forall id :: id in v.m ==>
                 w.m[id] == if id in order then PauseOne(v, id, machineID, now).m[id] else v.m[id]
  {
    if order != [] {
      PauseEachAt(v, order[..|order| - 1], machineID, now);
      assert order == order[..|order| - 1] + [order[|order| - 1]];
    }
  }

  /**
   In whatever order the map is walked, pausing a machine's sessions one by one gives the same
   registry: paused are afterwards exactly the sessions that were, and those of the machine that
   have not ended; nothing else of any session changes, and pausing again changes nothing.
   */
  lemma PauseInAnyOrder(v: RegVal, order: seq<string>, machineID: string, now: nat, later: nat)
    requires Enumerates(order, v.m.Keys)
    ensures PauseEach(v, order, machineID, now) == PauseAllForMachine(v, machineID, now)
    ensures var w := PauseAllForMachine(v, machineID, now);
            && w.m.Keys == v.m.Keys && PauseAllForMachine(w, machineID, later) == w
            && forall id :: id in v.m ==>
                 && (w.m[id].state == Paused <==>
                       v.m[id].state == Paused || (v.m[id].machineID == machineID && !v.m[id].ended))
                 && (w.m[id] == v.m[id] || w.m[id] == v.m[id].(state := Paused, touched := now))
  {
    PauseEachAll(v, order, machineID, now);
    PauseTwice(v, machineID, now, later);
  }

  lemma PauseEachAll(v: RegVal, order: seq<string>, machineID: string, now: nat)
    requires Enumerates(order, v.m.Keys)
    ensures PauseEach(v, order, machineID, now) == PauseAllForMachine(v, machineID, now)
  {
    PauseEachAt(v, order, machineID, now);
    assert PauseEach(v, order, machineID, now).m == PauseAllForMachine(v, machineID, now).m;
  }

  lemma PauseTwice(v: RegVal, machineID: string, now: nat, later: nat)
    ensures var w := PauseAllForMachine(v, machineID, now); PauseAllForMachine(w, machineID, later) == w
  {
    var w := PauseAllForMachine(v, machineID, now);
    assert PauseAllForMachine(w, machineID, later).m == w.m;
  }

  function ItemFor(id: string, s: SessionVal): Item {
    Item(id, s.ended, s.touched, s.ring)
  }

  function Items(m: map<string, SessionVal>, order: seq<string>): (r: seq<Item>)
    requires forall i :: 0 <= i < |order| ==> order[i] in m
    ensures |r| == |order|
  {
    seq(|order|, i requires 0 <= i < |order| => ItemFor(order[i], m[order[i]]))
  }

  function IndexOf(order: seq<string>, id: string): (k: nat)
    requires id in order
    ensures k < |order| && order[k] == id
  {
    if order[0] == id then 0 else 1 + IndexOf(order[1..], id)
  }

  /** The sessions with the rings of `items`, which lists them in the given order. */
  function WithRings(m: map<string, SessionVal>, order: seq<string>, items: seq<Item>): map<string, SessionVal>
    requires |items| == |order| && forall id :: id in m ==> id in order
  {
    map id | id in m :: m[id].(ring := items[IndexOf(order, id)].ring)
  }

  function Rebalance(v: RegVal, active: string, order: seq<string>, f: Scale): RegVal
    requires v.floor >= 0 && forall id :: id in order <==> id in v.m
    ensures |BalanceSpec(Items(v.m, order), active, v.cap, v.floor, f)| == |order|
  {
    BalanceKeepsContents(Items(v.m, order), active, v.cap, v.floor, f);
    v.(m := WithRings(v.m, order, BalanceSpec(Items(v.m, order), active, v.cap, v.floor, f)))
  }

  function AppendTo(v: RegVal, id: string, e: Entry, now: nat): RegVal
    requires id in v.m
  {
    v.(m := v.m[id := v.m[id].(ring := Append(v.m[id].ring, e), touched := now)])
  }

  /** `order` is the map iteration order in which LRUItems lists the sessions. */
  function Publish(v: RegVal, id: string, e: Entry, now: nat, order: seq<string>, f: Scale): RegVal
    requires v.floor >= 0 && forall id :: id in order <==> id in v.m
  {
    if id !in v.m then v
    else Rebalance(AppendTo(v, id, e, now), id, order, f)
  }

  // ---------------------------------------------------------------------------------------------
  // Sums over a map and over any listing of it
  // ---------------------------------------------------------------------------------------------

  ghost function TotalBytes(m: map<string, SessionVal>): nat {
    if m == map[] then 0
    else var id :| id in m; Size(m[id].ring.contents) + TotalBytes(m - {id})
  }

  lemma {:induction false} TotalBytesWithout(m: map<string, SessionVal>, id: string)
    requires id in m
    ensures TotalBytes(m) == Size(m[id].ring.contents) + TotalBytes(m - {id})
    decreases |m|
  {
    var k :| k in m && TotalBytes(m) == Size(m[k].ring.contents) + TotalBytes(m - {k});
    if k != id {
      TotalBytesWithout(m - {k}, id);
      TotalBytesWithout(m - {id}, k);
      assert m - {k} - {id} == m - {id} - {k};
    }
  }

  lemma TotalBytesUpdate(m: map<string, SessionVal>, id: string, s: SessionVal)
    ensures TotalBytes(m[id := s]) ==
            TotalBytes(m) - (if id in m then Size(m[id].ring.contents) else 0) + Size(s.ring.contents)
  {
    TotalBytesWithout(m[id := s], id);
    assert m[id := s] - {id} == m - {id};
    if id in m { TotalBytesWithout(m, id); } else { assert m - {id} == m; }
  }

  lemma {:induction false} TotalOfListing(m: map<string, SessionVal>, order: seq<string>)
    requires Enumerates(order, m.Keys)
    ensures Total(Items(m, order)) == TotalBytes(m)
    decreases |order|
  {
    if order == [] {
      assert m.Keys == {};
      assert m == map[];
    } else {
      var n := |order| - 1;
      var rest := m - {order[n]};
      assert Enumerates(order[..n], rest.Keys) by {
        forall c ensures c in order[..n] <==> c in rest.Keys {
          if c in rest { assert c in order && c != order[n]; }
        }
      }
      assert Items(m, order)[..n] == Items(rest, order[..n]);
      TotalOfListing(rest, order[..n]);
      TotalBytesWithout(m, order[n]);
    }
  }
}
