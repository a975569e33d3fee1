/** What the global cache policy guarantees, over every set of rings. */
module BalanceProps {
  import opened Ring
  import opened Balance

  // ---------------------------------------------------------------------------------------------
  // One ring, before and after
  // ---------------------------------------------------------------------------------------------

  /** `b` is `a` after any number of shrink steps: only the ring's budget and oldest entries differ. */
  ghost predicate Reduced(a: Item, b: Item, floor: int) {
    && b == a.(ring := b.ring)
    && b.ring.history == a.ring.history
    && b.ring.latest == a.ring.latest
    && IsSuffix(b.ring.contents, a.ring.contents)
    && (!Candidate(a, floor) ==> b == a)
  }

  ghost predicate AllReduced(before: seq<Item>, after: seq<Item>, floor: int) {
    |after| == |before| && forall i :: 0 <= i < |before| ==> Reduced(before[i], after[i], floor)
  }

  /** A ring's budget stays between the floor and the cap, and its bytes within the budget. */
  ghost predicate Budgeted(w: Window, cap: int, floor: int) {
    floor <= w.maxBytes <= cap && WithinBudget(w) && Consistent(w)
  }

  lemma ReducedTransitive(a: Item, b: Item, c: Item, floor: int)
    requires Reduced(a, b, floor) && Reduced(b, c, floor)
    ensures Reduced(a, c, floor)
  {
    SuffixTransitive(c.ring.contents, b.ring.contents, a.ring.contents);
  }

  lemma ShrinkRingReduces(item: Item, floor: int, f: Scale)
    requires Candidate(item, floor)
    ensures Reduced(item, item.(ring := ShrinkRing(item.ring, floor, f)), floor)
  {
    var newMax := if f.shrink(item.ring.maxBytes) < floor then floor else f.shrink(item.ring.maxBytes);
    FitFits(item.ring.contents, newMax);
  }

  lemma ShrinkRingBudgeted(w: Window, cap: int, floor: int, f: Scale)
    requires 0 < floor && Budgeted(w, cap, floor)
    ensures Budgeted(ShrinkRing(w, floor, f), cap, floor)
  {
    var newMax := if f.shrink(w.maxBytes) < floor then floor else f.shrink(w.maxBytes);
    EvictKeeps(w.(maxBytes := newMax));
  }

  // ---------------------------------------------------------------------------------------------
  // The shrink loop
  // ---------------------------------------------------------------------------------------------

  lemma ShrinkStepReduces(items: seq<Item>, floor: int, f: Scale)
    requires floor >= 0 && Best(items, floor, |items|) >= 0
    ensures AllReduced(items, ShrinkAt(items, Best(items, floor, |items|), floor, f), floor)
  {
    ShrinkRingReduces(items[Best(items, floor, |items|)], floor, f);
  }

  /** Every ring ends with a suffix of what it had; ended rings and rings at or below the floor
      keep everything, budget included. */
  lemma {:induction false} ShrinkReduces(items: seq<Item>, cap: int, floor: int, f: Scale)
    requires floor >= 0
    ensures AllReduced(items, Shrink(items, cap, floor, f), floor)
    decreases Measure(items, floor)
  {
    var b := Best(items, floor, |items|);
    if Total(items) > cap && b != -1 {
      var next := ShrinkAt(items, b, floor, f);
      ShrinkTerminates(items, floor, f);
      ShrinkStepReduces(items, floor, f);
      ShrinkReduces(next, cap, floor, f);
      forall i | 0 <= i < |items| ensures Reduced(items[i], Shrink(items, cap, floor, f)[i], floor) {
        ReducedTransitive(items[i], next[i], Shrink(next, cap, floor, f)[i], floor);
      }
    }
  }

  /** The loop stops only under the cap or with every live ring at or below the floor. */
  lemma {:induction false} ShrinkMeetsBudget(items: seq<Item>, cap: int, floor: int, f: Scale)
    requires floor >= 0
    ensures var r := Shrink(items, cap, floor, f);
            Total(r) <= cap || forall i :: 0 <= i < |r| ==> !Candidate(r[i], floor)
    decreases Measure(items, floor)
  {
    var b := Best(items, floor, |items|);
    BestIsOldest(items, floor, |items|);
    if Total(items) > cap && b != -1 {
      ShrinkTerminates(items, floor, f);
      ShrinkMeetsBudget(ShrinkAt(items, b, floor, f), cap, floor, f);
    }
  }

  /** Least recently used first: whoever loses an entry, every live ring touched strictly earlier
      has already been brought down to the floor. */
  lemma {:induction false} ShrinkIsFair(items: seq<Item>, cap: int, floor: int, f: Scale, older: nat, loser: nat)
    requires floor >= 0 && older < |items| && loser < |items|
    requires !items[older].ended && items[older].touched < items[loser].touched
    requires |Shrink(items, cap, floor, f)| == |items|
    requires Shrink(items, cap, floor, f)[loser].ring.contents != items[loser].ring.contents
    ensures Size(Shrink(items, cap, floor, f)[older].ring.contents) <= floor
    decreases Measure(items, floor)
  {
    var b := Best(items, floor, |items|);
    BestIsOldest(items, floor, |items|);
    var next := ShrinkAt(items, b, floor, f);
    ShrinkTerminates(items, floor, f);
    if b == loser {
      ShrinkReduces(items, cap, floor, f);
      assert !Candidate(items[older], floor);
      assert Reduced(items[older], Shrink(items, cap, floor, f)[older], floor);
    } else {
      ShrinkIsFair(next, cap, floor, f, older, loser);
    }
  }

  lemma {:induction false} TotalUpdate(items: seq<Item>, i: nat, item: Item)
    requires i < |items|
    ensures Total(items[i := item]) == Total(items) - Size(items[i].ring.contents) + Size(item.ring.contents)
  {
    var n := |items| - 1;
    var after := items[i := item];
    if i == n {
      assert after[..n] == items[..n];
    } else {
      assert after[..n] == items[..n][i := item];
      TotalUpdate(items[..n], i, item);
    }
  }

  /** If only item `b` lost entries, putting them back restores the total. */
  lemma PutBack(items: seq<Item>, b: nat, item: Item, r: seq<Item>)
    requires b < |items| && |r| == |items|
    requires forall k :: 0 <= k < |r| ==> r[k].ring.contents == items[b := item][k].ring.contents
    ensures Total(r) - Size(r[b].ring.contents) + Size(items[b].ring.contents) == Total(items)
  {
    TotalUpdate(items, b, item);
    SameTotal(r, items[b := item]);
  }

  ghost predicate SomeoneLost(before: seq<Item>, after: seq<Item>) {
    |after| == |before| && exists k :: 0 <= k < |before| && after[k].ring.contents != before[k].ring.contents
  }

  /** Had ring `i` still held `c`, more than it does in `r`, the total would be over the cap. */
  ghost predicate OverWithout(items: seq<Item>, r: seq<Item>, cap: int, i: nat, c: seq<Entry>) {
    && i < |items| && |r| == |items|
    && IsSuffix(r[i].ring.contents, c) && IsSuffix(c, items[i].ring.contents)
    && |c| > |r[i].ring.contents|
    && Total(r) - Size(r[i].ring.contents) + Size(c) > cap
  }

  lemma OverEarlier(items: seq<Item>, next: seq<Item>, r: seq<Item>, cap: int, floor: int, i: nat, c: seq<Entry>)
    requires AllReduced(items, next, floor) && OverWithout(next, r, cap, i, c)
    ensures OverWithout(items, r, cap, i, c)
  {
    assert Reduced(items[i], next[i], floor);
    SuffixTransitive(c, next[i].ring.contents, items[i].ring.contents);
  }

  lemma LastEviction(items: seq<Item>, b: nat, next: seq<Item>, r: seq<Item>, cap: int, floor: int)
    requires b < |items| == |next| && next == items[b := next[b]] && Total(items) > cap && AllReduced(items, r, floor)
    requires SomeoneLost(items, r) && !SomeoneLost(next, r)
    ensures OverWithout(items, r, cap, b, items[b].ring.contents)
  {
    PutBack(items, b, next[b], r);
    assert Reduced(items[b], r[b], floor);
  }

  /** Nothing is evicted without need: putting back what the last eviction took from ring `i`
      (so that it holds `c` again) would exceed the cap. */
  lemma {:induction false} ShrinkEvictsOnlyOverCap(items: seq<Item>, cap: int, floor: int, f: Scale)
    returns (i: nat, c: seq<Entry>)
    requires floor >= 0 && SomeoneLost(items, Shrink(items, cap, floor, f))
    ensures OverWithout(items, Shrink(items, cap, floor, f), cap, i, c)
    decreases Measure(items, floor)
  {
    var b := Best(items, floor, |items|);
    var next := ShrinkAt(items, b, floor, f);
    var r := Shrink(items, cap, floor, f);
    ShrinkTerminates(items, floor, f);
    ShrinkStepReduces(items, floor, f);
    ShrinkReduces(items, cap, floor, f);
    if SomeoneLost(next, r) {
      i, c := ShrinkEvictsOnlyOverCap(next, cap, floor, f);
      OverEarlier(items, next, r, cap, floor, i, c);
    } else {
      i, c := b, items[b].ring.contents;
      LastEviction(items, b, next, r, cap, floor);
    }
  }

  lemma {:induction false} SameTotal(a: seq<Item>, b: seq<Item>)
    requires |a| == |b| && forall i :: 0 <= i < |a| ==> a[i].ring.contents == b[i].ring.contents
    ensures Total(a) == Total(b)
  {
    if a != [] { SameTotal(a[..|a| - 1], b[..|b| - 1]); }
  }

  lemma {:induction false} ShrinkKeepsBudgets(items: seq<Item>, cap: int, floor: int, f: Scale)
    requires 0 < floor && forall i :: 0 <= i < |items| ==> Budgeted(items[i].ring, cap, floor)
    ensures |Shrink(items, cap, floor, f)| == |items|
    ensures forall i :: 0 <= i < |items| ==> Budgeted(Shrink(items, cap, floor, f)[i].ring, cap, floor)
    decreases Measure(items, floor)
  {
    var b := Best(items, floor, |items|);
    if Total(items) > cap && b != -1 {
      ShrinkTerminates(items, floor, f);
      ShrinkRingBudgeted(items[b].ring, cap, floor, f);
      ShrinkKeepsBudgets(ShrinkAt(items, b, floor, f), cap, floor, f);
    }
  }

  // ---------------------------------------------------------------------------------------------
  // What the floor saves
  // ---------------------------------------------------------------------------------------------

  function Newest(item: Item): Entry
    requires item.ring.contents != []
  {
    item.ring.contents[|item.ring.contents| - 1]
  }

  lemma ShrinkRingKeepsNewest(item: Item, floor: int, f: Scale)
    requires item.ring.contents != [] && |Newest(item).payload| <= floor
    ensures var w := ShrinkRing(item.ring, floor, f);
            w.contents != [] && w.contents[|w.contents| - 1] == Newest(item)
  {
    var newMax := if f.shrink(item.ring.maxBytes) < floor then floor else f.shrink(item.ring.maxBytes);
    EvictEmptiesExactly(item.ring.(maxBytes := newMax));
  }

  /** A ring whose newest entry fits the floor keeps it, whatever the other rings need. */
  lemma {:induction false} FloorKeepsNewest(items: seq<Item>, cap: int, floor: int, f: Scale, i: nat)
    requires floor >= 0 && i < |items| && items[i].ring.contents != [] && |Newest(items[i]).payload| <= floor
    ensures var r := Shrink(items, cap, floor, f);
            |r| == |items| && r[i].ring.contents != [] && Newest(r[i]) == Newest(items[i])
    decreases Measure(items, floor)
  {
    var b := Best(items, floor, |items|);
    if Total(items) > cap && b != -1 {
      ShrinkTerminates(items, floor, f);
      if b == i { ShrinkRingKeepsNewest(items[i], floor, f); }
      FloorKeepsNewest(ShrinkAt(items, b, floor, f), cap, floor, f, i);
    }
  }

  /** Without that condition the floor saves nothing: a ring that holds one entry larger than the
      cap, with its budget already at the floor, is emptied. */
  lemma LargeEntryIsLost(id: string, touched: nat, e: Entry, cap: int, floor: int, f: Scale)
    requires 0 <= floor <= cap < |e.payload|
    ensures var item := Item(id, false, touched, Window([e], floor, e.seqNo, e.seqNo, [e]));
            var r := Shrink([item], cap, floor, f);
            |r| == 1 && r[0].ring.contents == []
  {
    var item := Item(id, false, touched, Window([e], floor, e.seqNo, e.seqNo, [e]));
    assert Size([e]) == |e.payload|;
    assert Total([item]) == |e.payload|;
    assert Best([item], floor, 0) == -1;
    assert Best([item], floor, 1) == 0;
    var newMax := if f.shrink(floor) < floor then floor else f.shrink(floor);
    assert newMax == floor;
    EvictEmptiesExactly(item.ring);
    var next := ShrinkAt([item], 0, floor, f);
    assert next[0].ring == Evict(item.ring);
    assert Total(next) == 0;
    assert Shrink([item], cap, floor, f) == Shrink(next, cap, floor, f);
  }

  // ---------------------------------------------------------------------------------------------
  // When the cap is met
  // ---------------------------------------------------------------------------------------------

  /** What a ring still holds when everything live has been taken down to the floor. */
  function AtFloor(item: Item, floor: int): seq<Entry> {
    if item.ended then item.ring.contents else Fit(item.ring.contents, floor)
  }

  function FloorTotal(items: seq<Item>, floor: int): nat {
    if items == [] then 0 else FloorTotal(items[..|items| - 1], floor) + Size(AtFloor(items[|items| - 1], floor))
  }

  lemma {:induction false} FloorTotalSame(a: seq<Item>, b: seq<Item>, floor: int)
    requires |a| == |b| && forall i :: 0 <= i < |a| ==> AtFloor(a[i], floor) == AtFloor(b[i], floor)
    ensures FloorTotal(a, floor) == FloorTotal(b, floor)
  {
    if a != [] { FloorTotalSame(a[..|a| - 1], b[..|b| - 1], floor); }
  }

  lemma {:induction false} FloorTotalBelow(items: seq<Item>, floor: int)
    ensures FloorTotal(items, floor) <= Total(items)
    ensures (forall i :: 0 <= i < |items| ==> !Candidate(items[i], floor)) ==> FloorTotal(items, floor) == Total(items)
  {
    if items != [] {
      var last := items[|items| - 1];
      FloorTotalBelow(items[..|items| - 1], floor);
      FitFits(last.ring.contents, floor);
      SizeOfSuffix(AtFloor(last, floor), last.ring.contents);
    }
  }

  lemma ShrinkRingAtFloor(item: Item, floor: int, f: Scale)
    requires !item.ended
    ensures AtFloor(item.(ring := ShrinkRing(item.ring, floor, f)), floor) == AtFloor(item, floor)
  {
    var newMax := if f.shrink(item.ring.maxBytes) < floor then floor else f.shrink(item.ring.maxBytes);
    FitTwice(item.ring.contents, newMax, floor);
  }

  lemma ShrinkStepAtFloor(items: seq<Item>, floor: int, f: Scale, b: nat)
    requires b < |items| && !items[b].ended
    ensures FloorTotal(ShrinkAt(items, b, floor, f), floor) == FloorTotal(items, floor)
    ensures forall i :: 0 <= i < |items| ==> AtFloor(ShrinkAt(items, b, floor, f)[i], floor) == AtFloor(items[i], floor)
  {
    ShrinkRingAtFloor(items[b], floor, f);
    FloorTotalSame(ShrinkAt(items, b, floor, f), items, floor);
  }

  /** The loop gets under the cap if and only if the rings would be, were every live one at the floor. */
  lemma {:induction false} ShrinkMeetsCapExactly(items: seq<Item>, cap: int, floor: int, f: Scale)
    requires floor >= 0
    ensures Total(Shrink(items, cap, floor, f)) <= cap <==> FloorTotal(items, floor) <= cap
    decreases Measure(items, floor)
  {
    var b := Best(items, floor, |items|);
    BestIsOldest(items, floor, |items|);
    FloorTotalBelow(items, floor);
    if Total(items) > cap && b != -1 {
      ShrinkTerminates(items, floor, f);
      ShrinkStepAtFloor(items, floor, f, b);
      ShrinkMeetsCapExactly(ShrinkAt(items, b, floor, f), cap, floor, f);
    }
  }

  lemma AtFloorAlready(item: Item, floor: int)
    requires !Candidate(item, floor)
    ensures AtFloor(item, floor) == item.ring.contents
  {
  }

  /** If it does not, every live ring ends with exactly what fits the floor. */
  lemma {:induction false} ShrinkToFloor(items: seq<Item>, cap: int, floor: int, f: Scale, i: nat)
    requires floor >= 0 && i < |items| && FloorTotal(items, floor) > cap
    ensures |Shrink(items, cap, floor, f)| == |items|
    ensures Shrink(items, cap, floor, f)[i].ring.contents == AtFloor(items[i], floor)
    decreases Measure(items, floor)
  {
    var b := Best(items, floor, |items|);
    BestIsOldest(items, floor, |items|);
    FloorTotalBelow(items, floor);
    if b != -1 {
      ShrinkTerminates(items, floor, f);
      ShrinkStepAtFloor(items, floor, f, b);
      ShrinkToFloor(ShrinkAt(items, b, floor, f), cap, floor, f, i);
    } else {
      AtFloorAlready(items[i], floor);
    }
  }

  // ---------------------------------------------------------------------------------------------
  // The whole policy
  // ---------------------------------------------------------------------------------------------

  lemma {:induction false} FindsFirst(items: seq<Item>, id: string, from: nat)
    requires from <= |items|
    ensures var k := FindId(items, id, from);
            if k == -1 then forall i :: from <= i < |items| ==> items[i].id != id
            else from <= k < |items| && items[k].id == id
    decreases |items| - from
  {
    if from < |items| { FindsFirst(items, id, from + 1); }
  }

  /** Sessions have different ids. */
  ghost predicate DistinctIds(items: seq<Item>) {
    forall i, j :: 0 <= i < j < |items| ==> items[i].id != items[j].id
  }

  /** Which ring grows, and by how much: the active one, under the mark, but never beyond the cap. */
  lemma GrowExactly(items: seq<Item>, active: string, cap: int, f: Scale, i: nat)
    requires DistinctIds(items) && i < |items|
    ensures var g := Grow(items, active, cap, f);
            && |g| == |items| && g[i] == items[i].(ring := items[i].ring.(maxBytes := g[i].ring.maxBytes))
            && g[i].ring.maxBytes ==
               if items[i].id != active || Total(items) >= f.mark(cap) then items[i].ring.maxBytes
               else if f.grow(items[i].ring.maxBytes) < cap then f.grow(items[i].ring.maxBytes)
               else cap
  {
    FindsFirst(items, active, 0);
  }

  /** The same of the whole policy, which changes nothing else under the mark. */
  lemma BalanceGrowsExactly(items: seq<Item>, active: string, cap: int, floor: int, f: Scale, i: nat)
    requires 0 <= floor <= cap && DistinctIds(items) && i < |items| && Total(items) < f.mark(cap)
    ensures var r := BalanceSpec(items, active, cap, floor, f);
            && |r| == |items|
            && r[i] == items[i].(ring := items[i].ring.(maxBytes :=
                 if items[i].id != active then items[i].ring.maxBytes
                 else if f.grow(items[i].ring.maxBytes) < cap then f.grow(items[i].ring.maxBytes)
                 else cap))
  {
    GrowOrShrink(items, active, cap, floor, f);
    GrowExactly(items, active, cap, f, i);
  }

  /** One shrink step takes a tenth off the budget, to the floor at least, and evicts no more than that demands. */
  lemma ShrinkRingExactly(w: Window, floor: int, f: Scale)
    ensures var w' := ShrinkRing(w, floor, f);
            && w'.maxBytes == (if f.shrink(w.maxBytes) > floor then f.shrink(w.maxBytes) else floor)
            && w'.history == w.history && w'.latest == w.latest
            && IsSuffix(w'.contents, w.contents) && (w'.contents == [] || Size(w'.contents) <= w'.maxBytes)
            && forall longer :: IsSuffix(longer, w.contents) && |longer| > |w'.contents| ==> Size(longer) > w'.maxBytes
  {
    EvictDropsOnlyWhatMust(w.(maxBytes := if f.shrink(w.maxBytes) < floor then floor else f.shrink(w.maxBytes)));
  }

  /**
   The policy in tenths. With the total clearly under eight tenths of the cap the active ring's budget
   grows by a tenth or to the cap; clearly over, no budget grows; and a shrink step takes a tenth off a
   budget or sets it to the floor. Clearly means by two bytes, which covers truncation and rounding.
   */
  lemma PolicyByTenths(items: seq<Item>, active: string, cap: int, floor: int, f: Scale, i: nat)
    requires 0 <= floor <= cap < 0x4_0000_0000_0000 && DistinctIds(items) && i < |items|
    requires 0 <= items[i].ring.maxBytes < 0x4_0000_0000_0000
    ensures var before, after := items[i].ring.maxBytes, Grow(items, active, cap, f)[i].ring.maxBytes;
            && (10 * Total(items) <= 8 * cap - 20 && items[i].id == active ==>
                  after == cap || (after < cap && Tenths(after, 11, before)))
            && (10 * Total(items) >= 8 * cap + 20 ==> after == before)
    ensures var before, after := items[i].ring.maxBytes, ShrinkRing(items[i].ring, floor, f).maxBytes;
            after == floor || (after > floor && Tenths(after, 9, before))
  {
    GrowExactly(items, active, cap, f, i);
    ShrinkRingExactly(items[i].ring, floor, f);
    assert Tenths(f.mark(cap), 8, cap);
  }

  /** Least recently used first, with growth before: whoever loses an entry, every live ring touched
      strictly earlier ends at or below the floor. */
  lemma BalanceIsFair(items: seq<Item>, active: string, cap: int, floor: int, f: Scale, older: nat, loser: nat)
    requires 0 <= floor && older < |items| && loser < |items|
    requires !items[older].ended && items[older].touched < items[loser].touched
    requires |BalanceSpec(items, active, cap, floor, f)| == |items|
    requires BalanceSpec(items, active, cap, floor, f)[loser].ring.contents != items[loser].ring.contents
    ensures Size(BalanceSpec(items, active, cap, floor, f)[older].ring.contents) <= floor
  {
    ShrinkIsFair(Grow(items, active, cap, f), cap, floor, f, older, loser);
  }

  /** Growth and shrinking never meet: under the 80% mark nothing is evicted, over the cap nothing grows. */
  lemma GrowOrShrink(items: seq<Item>, active: string, cap: int, floor: int, f: Scale)
    requires 0 <= floor <= cap
    ensures Total(items) < f.mark(cap) ==> BalanceSpec(items, active, cap, floor, f) == Grow(items, active, cap, f)
    ensures Total(items) > cap ==> BalanceSpec(items, active, cap, floor, f) == Shrink(items, cap, floor, f)
    ensures f.mark(cap) <= Total(items) <= cap ==> BalanceSpec(items, active, cap, floor, f) == items
  {
    SameTotal(Grow(items, active, cap, f), items);
  }

  /** Per-ring budgets: kept between floor and cap, with bytes within budget up to one oversized entry. */
  lemma BalanceKeepsBudgets(items: seq<Item>, active: string, cap: int, floor: int, f: Scale)
    requires 0 < floor <= cap && forall i :: 0 <= i < |items| ==> Budgeted(items[i].ring, cap, floor)
    ensures |BalanceSpec(items, active, cap, floor, f)| == |items|
    ensures forall i :: 0 <= i < |items| ==> Budgeted(BalanceSpec(items, active, cap, floor, f)[i].ring, cap, floor)
  {
    ShrinkKeepsBudgets(Grow(items, active, cap, f), cap, floor, f);
  }

  /** Contents after balancing, whichever branch was taken. */
  lemma BalanceKeepsContents(items: seq<Item>, active: string, cap: int, floor: int, f: Scale)
    requires 0 <= floor
    ensures var r := BalanceSpec(items, active, cap, floor, f);
            && |r| == |items|
            && forall i :: 0 <= i < |items| ==>
                 && r[i] == items[i].(ring := r[i].ring)
                 && r[i].ring.history == items[i].ring.history
                 && IsSuffix(r[i].ring.contents, items[i].ring.contents)
                 && (!Candidate(items[i], floor) ==> r[i].ring.contents == items[i].ring.contents)
  {
    var grown := Grow(items, active, cap, f);
    ShrinkReduces(grown, cap, floor, f);
    forall i | 0 <= i < |items|
      ensures Reduced(grown[i], BalanceSpec(items, active, cap, floor, f)[i], floor)
    {
    }
  }

  function EndedBytes(items: seq<Item>): nat {
    if items == [] then 0
    else EndedBytes(items[..|items| - 1]) +
         if items[|items| - 1].ended then Size(items[|items| - 1].ring.contents) else 0
  }

  function LiveRings(items: seq<Item>): nat {
    if items == [] then 0
    else LiveRings(items[..|items| - 1]) + if items[|items| - 1].ended then 0 else 1
  }

  /** The global budget in numbers: at most the cap, or what ended rings hold plus a floor per live ring. */
  lemma {:induction false} TotalWithoutCandidates(items: seq<Item>, floor: int)
    requires floor >= 0 && forall i :: 0 <= i < |items| ==> !Candidate(items[i], floor)
    ensures Total(items) <= EndedBytes(items) + LiveRings(items) * floor
  {
    if items != [] {
      var rest := items[..|items| - 1];
      TotalWithoutCandidates(rest, floor);
      var live := if items[|items| - 1].ended then 0 else 1;
      assert (LiveRings(rest) + live) * floor == LiveRings(rest) * floor + live * floor;
    }
  }

  lemma BalanceMeetsBudget(items: seq<Item>, active: string, cap: int, floor: int, f: Scale)
    requires 0 <= floor
    ensures var r := BalanceSpec(items, active, cap, floor, f);
            Total(r) <= cap || Total(r) <= EndedBytes(r) + LiveRings(r) * floor
  {
    var r := BalanceSpec(items, active, cap, floor, f);
    ShrinkMeetsBudget(Grow(items, active, cap, f), cap, floor, f);
    if Total(r) > cap { TotalWithoutCandidates(r, floor); }
  }

  lemma GrowAtFloor(items: seq<Item>, active: string, cap: int, floor: int, f: Scale)
    ensures |Grow(items, active, cap, f)| == |items|
    ensures FloorTotal(Grow(items, active, cap, f), floor) == FloorTotal(items, floor)
    ensures forall i :: 0 <= i < |items| ==>
              && AtFloor(Grow(items, active, cap, f)[i], floor) == AtFloor(items[i], floor)
              && Grow(items, active, cap, f)[i].ring.contents == items[i].ring.contents
  {
    FloorTotalSame(Grow(items, active, cap, f), items, floor);
  }

  /**
   Exactly when the cap is met: balancing ends under it if and only if the ended rings and what the
   live ones can keep within the floor are together under it.
   */
  lemma BalanceMeetsCapExactly(items: seq<Item>, active: string, cap: int, floor: int, f: Scale)
    requires floor >= 0
    ensures Total(BalanceSpec(items, active, cap, floor, f)) <= cap <==> FloorTotal(items, floor) <= cap
  {
    GrowAtFloor(items, active, cap, floor, f);
    ShrinkMeetsCapExactly(Grow(items, active, cap, f), cap, floor, f);
  }

  /** The cap is not always met: an ended ring larger than the cap is never touched. */
  lemma EndedRingStaysOverCap(id: string, touched: nat, w: Window, active: string, cap: int, floor: int, f: Scale)
    requires floor >= 0 && Size(w.contents) > cap
    ensures Total(BalanceSpec([Item(id, true, touched, w)], active, cap, floor, f)) > cap
  {
    var items := [Item(id, true, touched, w)];
    assert items[..0] == [];
    assert FloorTotal(items, floor) == FloorTotal(items[..0], floor) + Size(w.contents);
    BalanceMeetsCapExactly(items, active, cap, floor, f);
  }
}
