/** The cache budget over every run of registry operations. */
module RegistryRuns {
  import opened Base
  import opened Ring
  import opened Balance
  import opened BalanceLoss
  import opened BalanceProps
  import opened RegistrySpec

  /** Every ring is within its own budget, and the budget between the floor and the cap. */
  ghost predicate RingsBudgeted(v: RegVal) {
    0 < v.floor <= v.cap && forall id :: id in v.m ==> Budgeted(v.m[id].ring, v.cap, v.floor)
  }

  /** The global promise: under the cap, or every live ring already at or below the floor. */
  ghost predicate BudgetMet(v: RegVal) {
    TotalBytes(v.m) <= v.cap ||
    forall id :: id in v.m && !v.m[id].ended ==> Size(v.m[id].ring.contents) <= v.floor
  }

  ghost predicate Inv(v: RegVal) {
    RingsBudgeted(v) && BudgetMet(v)
  }

  lemma IndexOfListed(order: seq<string>, i: nat)
    requires i < |order| && forall j, k :: 0 <= j < k < |order| ==> order[j] != order[k]
    ensures order[i] in order && IndexOf(order, order[i]) == i
  {
    var k := IndexOf(order, order[i]);
  }

  lemma WithRingsItems(m: map<string, SessionVal>, order: seq<string>, r: seq<Item>)
    requires Enumerates(order, m.Keys) && |r| == |order|
    requires forall i :: 0 <= i < |r| ==> r[i] == ItemFor(order[i], m[order[i]]).(ring := r[i].ring)
    ensures WithRings(m, order, r).Keys == m.Keys
    ensures Items(WithRings(m, order, r), order) == r
  {
    forall i | 0 <= i < |order| ensures Items(WithRings(m, order, r), order)[i] == r[i] {
      IndexOfListed(order, i);
    }
  }

  /** What one session may look like after balancing: only its ring's budget and oldest entries change. */
  ghost predicate OnlyEvicted(a: SessionVal, b: SessionVal, floor: int) {
    && b == a.(ring := b.ring)
    && b.ring.history == a.ring.history
    && IsSuffix(b.ring.contents, a.ring.contents)
    && (a.ended || Size(a.ring.contents) <= floor ==> b.ring.contents == a.ring.contents)
  }

  lemma RebalanceEvictsOnly(v: RegVal, active: string, order: seq<string>, f: Scale, id: string)
    requires v.floor >= 0 && Enumerates(order, v.m.Keys) && id in v.m
    ensures OnlyEvicted(v.m[id], Rebalance(v, active, order, f).m[id], v.floor)
  {
    BalanceKeepsContents(Items(v.m, order), active, v.cap, v.floor, f);
  }

  lemma RebalanceItems(v: RegVal, active: string, order: seq<string>, f: Scale)
    requires v.floor >= 0 && Enumerates(order, v.m.Keys)
    ensures Rebalance(v, active, order, f).m.Keys == v.m.Keys
    ensures Items(Rebalance(v, active, order, f).m, order) == BalanceSpec(Items(v.m, order), active, v.cap, v.floor, f)
  {
    BalanceKeepsContents(Items(v.m, order), active, v.cap, v.floor, f);
    WithRingsItems(v.m, order, BalanceSpec(Items(v.m, order), active, v.cap, v.floor, f));
  }

  lemma ListedBudget(v: RegVal, order: seq<string>)
    requires Enumerates(order, v.m.Keys)
    requires var r := Items(v.m, order);
      Total(r) <= v.cap || forall i :: 0 <= i < |r| ==> !Candidate(r[i], v.floor)
    ensures BudgetMet(v)
  {
    TotalOfListing(v.m, order);
    var r := Items(v.m, order);
    if Total(r) > v.cap {
      forall id | id in v.m && !v.m[id].ended ensures Size(v.m[id].ring.contents) <= v.floor {
        assert !Candidate(r[IndexOf(order, id)], v.floor);
      }
    }
  }

  lemma RebalanceMeetsBudget(v: RegVal, active: string, order: seq<string>, f: Scale)
    requires v.floor >= 0 && Enumerates(order, v.m.Keys)
    ensures BudgetMet(Rebalance(v, active, order, f))
  {
    RebalanceItems(v, active, order, f);
    ShrinkMeetsBudget(Grow(Items(v.m, order), active, v.cap, f), v.cap, v.floor, f);
    ListedBudget(Rebalance(v, active, order, f), order);
  }

  /** The cap is met if and only if ended sessions and what live ones can keep within the floor are
      together under it. */
  lemma RebalanceMeetsCapExactly(v: RegVal, active: string, order: seq<string>, f: Scale)
    requires v.floor >= 0 && Enumerates(order, v.m.Keys)
    ensures TotalBytes(Rebalance(v, active, order, f).m) <= v.cap <==> FloorTotal(Items(v.m, order), v.floor) <= v.cap
  {
    RebalanceItems(v, active, order, f);
    BalanceMeetsCapExactly(Items(v.m, order), active, v.cap, v.floor, f);
    TotalOfListing(Rebalance(v, active, order, f).m, order);
  }

  /**
   A live session loses its whole ring if and only if its newest entry alone is larger than the floor
   and the ring does not fit beside the others, even with no more than it keeps longest. If the cap
   cannot be met at all, that entry decides alone.
   */
  lemma RebalanceEmptiesExactly(v: RegVal, active: string, order: seq<string>, f: Scale, id: string)
    requires v.floor >= 0 && Enumerates(order, v.m.Keys)
    requires id in v.m && !v.m[id].ended && v.m[id].ring.contents != []
    ensures var items, i := Items(v.m, order), IndexOf(order, id);
            var g, emptied := Grow(items, active, v.cap, f), Rebalance(v, active, order, f).m[id].ring.contents == [];
            && |g| == |items| && i < |items| && items[i] == ItemFor(id, v.m[id])
            && (emptied <==>
                  OverFloor(v.m[id].ring, v.floor) &&
                  Rest(items, v.floor, i, |items|) + Kept(g[i].ring, v.floor, f) > v.cap)
            && (FloorTotal(items, v.floor) > v.cap ==> (emptied <==> OverFloor(v.m[id].ring, v.floor)))
  {
    var i := IndexOf(order, id);
    RebalanceItems(v, active, order, f);
    BalanceEmptiesExactly(Items(v.m, order), active, v.cap, v.floor, f, i);
    assert Items(Rebalance(v, active, order, f).m, order)[i] == ItemFor(id, Rebalance(v, active, order, f).m[id]);
  }

  lemma ItemsDistinct(v: RegVal, order: seq<string>)
    requires Enumerates(order, v.m.Keys)
    ensures DistinctIds(Items(v.m, order))
  {
  }

  /** Under the mark the active session's budget grows, never beyond the cap, and nothing else changes. */
  lemma RebalanceGrowsExactly(v: RegVal, active: string, order: seq<string>, f: Scale, id: string)
    requires 0 <= v.floor <= v.cap && Enumerates(order, v.m.Keys) && id in v.m && TotalBytes(v.m) < f.mark(v.cap)
    ensures var s := v.m[id];
            Rebalance(v, active, order, f).m[id] == s.(ring := s.ring.(maxBytes :=
              if id != active then s.ring.maxBytes
              else if f.grow(s.ring.maxBytes) < v.cap then f.grow(s.ring.maxBytes)
              else v.cap))
  {
    ItemsDistinct(v, order);
    TotalOfListing(v.m, order);
    BalanceGrowsExactly(Items(v.m, order), active, v.cap, v.floor, f, IndexOf(order, id));
  }

  /** Whichever session loses an entry, every live one touched strictly earlier ends at or below the floor. */
  lemma RebalanceIsFair(v: RegVal, active: string, order: seq<string>, f: Scale, older: string, loser: string)
    requires 0 <= v.floor && Enumerates(order, v.m.Keys) && older in v.m && loser in v.m
    requires !v.m[older].ended && v.m[older].touched < v.m[loser].touched
    requires Rebalance(v, active, order, f).m[loser].ring.contents != v.m[loser].ring.contents
    ensures Size(Rebalance(v, active, order, f).m[older].ring.contents) <= v.floor
  {
    BalanceIsFair(Items(v.m, order), active, v.cap, v.floor, f, IndexOf(order, older), IndexOf(order, loser));
  }

  lemma RebalanceKeepsRings(v: RegVal, active: string, order: seq<string>, f: Scale)
    requires RingsBudgeted(v) && Enumerates(order, v.m.Keys)
    ensures RingsBudgeted(Rebalance(v, active, order, f))
  {
    BalanceKeepsBudgets(Items(v.m, order), active, v.cap, v.floor, f);
  }

  /** Publishing in one session costs another at most its ring's oldest entries. */
  lemma PublishLeavesOthers(v: RegVal, id: string, e: Entry, now: nat, order: seq<string>, f: Scale, k: string)
    requires v.floor >= 0 && Enumerates(order, v.m.Keys) && k in v.m && k != id
    ensures var w := Publish(v, id, e, now, order, f);
            w.m.Keys == v.m.Keys && OnlyEvicted(v.m[k], w.m[k], v.floor)
  {
    if id in v.m {
      var v1 := AppendTo(v, id, e, now);
      assert v1.m.Keys == v.m.Keys && v1.m[k] == v.m[k];
      RebalanceItems(v1, id, order, f);
      RebalanceEvictsOnly(v1, id, order, f, k);
    }
  }

  lemma PublishKeeps(v: RegVal, id: string, e: Entry, now: nat, order: seq<string>, f: Scale)
    requires Inv(v) && Enumerates(order, v.m.Keys)
    ensures Inv(Publish(v, id, e, now, order, f))
  {
    if id in v.m {
      AppendKeeps(v.m[id].ring, e);
      var v1 := AppendTo(v, id, e, now);
      assert v1.m.Keys == v.m.Keys;
      RebalanceKeepsRings(v1, id, order, f);
      RebalanceMeetsBudget(v1, id, order, f);
    }
  }

  lemma RegisterKeeps(v: RegVal, id: string, machineID: string, now: nat)
    requires Inv(v)
    ensures Inv(Register(v, id, machineID, now))
  {
    TotalBytesUpdate(v.m, id, Register(v, id, machineID, now).m[id]);
  }

  lemma {:induction false} SameRingsSameTotal(a: map<string, SessionVal>, b: map<string, SessionVal>)
    requires a.Keys == b.Keys && forall id :: id in a ==> b[id].ring == a[id].ring
    ensures TotalBytes(a) == TotalBytes(b)
    decreases |a|
  {
    if a != map[] {
      var id :| id in a;
      TotalBytesWithout(a, id);
      TotalBytesWithout(b, id);
      SameRingsSameTotal(a - {id}, b - {id});
    } else {
      assert b == map[];
    }
  }

  /** Operations that leave the rings alone and never bring an ended session back to life. */
  lemma SameRingsKeeps(v: RegVal, v': RegVal)
    requires Inv(v) && v'.cap == v.cap && v'.floor == v.floor && v'.m.Keys == v.m.Keys
    requires forall id :: id in v.m ==> v'.m[id].ring == v.m[id].ring && (v.m[id].ended ==> v'.m[id].ended)
    ensures Inv(v')
  {
    SameRingsSameTotal(v.m, v'.m);
  }

  // ---------------------------------------------------------------------------------------------
  // Runs
  // ---------------------------------------------------------------------------------------------

  datatype Op =
    | DoRegister(id: string, machineID: string, now: nat)
    | DoAdvanceSeq(id: string, seqNo: int, now: nat)
    | DoSetState(id: string, state: Status, now: nat)
    | DoMarkEnded(id: string, now: nat)
    | DoTouch(id: string, now: nat)
    | DoPause(machineID: string, now: nat)
    | DoPublish(id: string, e: Entry, now: nat, order: seq<string>)

  ghost predicate Enabled(v: RegVal, op: Op) {
    v.floor >= 0 && (op.DoPublish? ==> Enumerates(op.order, v.m.Keys))
  }

  function Do(v: RegVal, op: Op, f: Scale): RegVal
    requires Enabled(v, op)
  {
    match op
    case DoRegister(id, machineID, now) => Register(v, id, machineID, now)
    case DoAdvanceSeq(id, seqNo, now) => RaiseSeq(v, id, seqNo, now)
    case DoSetState(id, state, now) => SetState(v, id, state, now)
    case DoMarkEnded(id, now) => MarkEnded(v, id, now)
    case DoTouch(id, now) => Touch(v, id, now)
    case DoPause(machineID, now) => PauseAllForMachine(v, machineID, now)
    case DoPublish(id, e, now, order) => Publish(v, id, e, now, order, f)
  }

  lemma FieldOp(v: RegVal, op: Op, f: Scale, k: string)
    requires Enabled(v, op) && !op.DoRegister? && !op.DoPublish? && k in v.m
    ensures var w := Do(v, op, f);
            && w == v.(m := w.m) && w.m.Keys == v.m.Keys
            && w.m[k].ring == v.m[k].ring && (v.m[k].ended ==> w.m[k].ended)
  {
  }

  lemma FieldOpKeeps(v: RegVal, op: Op, f: Scale)
    requires Inv(v) && Enabled(v, op) && !op.DoRegister? && !op.DoPublish?
    ensures Inv(Do(v, op, f))
  {
    var w := Do(v, op, f);
    forall k | k in v.m
      ensures w == v.(m := w.m) && w.m.Keys == v.m.Keys && w.m[k].ring == v.m[k].ring && (v.m[k].ended ==> w.m[k].ended)
    {
      FieldOp(v, op, f, k);
    }
    if v.m == map[] {
      assert w == v;
    }
    SameRingsKeeps(v, w);
  }

  lemma OpKeeps(v: RegVal, op: Op, f: Scale)
    requires Inv(v) && Enabled(v, op)
    ensures Inv(Do(v, op, f))
  {
    match op {
      case DoRegister(id, machineID, now) => RegisterKeeps(v, id, machineID, now);
      case DoPublish(id, e, now, order) => PublishKeeps(v, id, e, now, order, f);
      case _ => FieldOpKeeps(v, op, f);
    }
  }

  /** `trace` starts with no session and every next state is one operation later. */
  ghost predicate IsRun(trace: seq<RegVal>, ops: seq<Op>, cap: int, floor: int, f: Scale) {
    && |trace| == |ops| + 1
    && trace[0] == RegVal(map[], cap, floor, 0)
    && forall i :: 0 <= i < |ops| ==> Enabled(trace[i], ops[i]) && trace[i + 1] == Do(trace[i], ops[i], f)
  }

  lemma StepOf(trace: seq<RegVal>, ops: seq<Op>, cap: int, floor: int, f: Scale, i: nat)
    requires IsRun(trace, ops, cap, floor, f) && i < |ops|
    ensures Enabled(trace[i], ops[i]) && trace[i + 1] == Do(trace[i], ops[i], f)
  {
  }

  lemma {:induction false} RunKeepsInv(trace: seq<RegVal>, ops: seq<Op>, cap: int, floor: int, f: Scale, i: nat)
    requires IsRun(trace, ops, cap, floor, f) && 0 < floor <= cap && i < |trace|
    ensures Inv(trace[i]) && trace[i].cap == cap && trace[i].floor == floor
  {
    if i > 0 {
      RunKeepsInv(trace, ops, cap, floor, f, i - 1);
      StepOf(trace, ops, cap, floor, f, i - 1);
      OpKeeps(trace[i - 1], ops[i - 1], f);
    }
  }

  /** A run that stays over the cap: a session ends, and a frame larger than the cap still arrives. */
  lemma LateFrameStaysOverCap(id: string, machineID: string, e: Entry, now: nat, cap: int, floor: int, f: Scale)
    requires 0 < floor <= cap < |e.payload|
    ensures var v := MarkEnded(Register(RegVal(map[], cap, floor, 0), id, machineID, now), id, now);
            v.m.Keys == {id} && TotalBytes(Publish(v, id, e, now, [id], f).m) > cap
  {
    var v := MarkEnded(Register(RegVal(map[], cap, floor, 0), id, machineID, now), id, now);
    var v1 := AppendTo(v, id, e, now);
    assert v1.m.Keys == v.m.Keys == {id};
    assert v1.m[id].ring.contents == [] + [e];
    assert [] + [e] == [e] && Size([e]) == |e.payload|;
    var items := Items(v1.m, [id]);
    assert items[..0] == [] && items[0].ended;
    assert FloorTotal(items, floor) == FloorTotal(items[..0], floor) + |e.payload|;
    RebalanceMeetsCapExactly(v1, id, [id], f);
  }

  /** After every step of every run the rings hold at most the cap, or at most what ended sessions
      hold plus one floor per live session; and every single ring is within its budget. */
  lemma RunMeetsBudget(trace: seq<RegVal>, ops: seq<Op>, cap: int, floor: int, f: Scale, i: nat, order: seq<string>)
    requires IsRun(trace, ops, cap, floor, f) && 0 < floor <= cap && i < |trace|
    requires Enumerates(order, trace[i].m.Keys)
    ensures var items := Items(trace[i].m, order);
            Total(items) <= cap || Total(items) <= EndedBytes(items) + LiveRings(items) * floor
    ensures forall id :: id in trace[i].m ==>
              var w := trace[i].m[id].ring;
              floor <= w.maxBytes <= cap && (Size(w.contents) <= w.maxBytes || |w.contents| == 1)
  {
    RunKeepsInv(trace, ops, cap, floor, f, i);
    var items := Items(trace[i].m, order);
    TotalOfListing(trace[i].m, order);
    if Total(items) > cap {
      forall k | 0 <= k < |items| ensures !Candidate(items[k], floor) {
        assert order[k] in trace[i].m;
      }
      TotalWithoutCandidates(items, floor);
    }
  }
}
