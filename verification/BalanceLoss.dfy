/**
 Which rings the cache policy empties, exactly. A live ring loses everything if and only if its
 newest entry alone is larger than the floor and what it holds just before the eviction that would
 take that entry is too much beside the rings it competes with.
 */
module BalanceLoss {
  import opened Ring
  import opened Balance
  import opened BalanceProps

  // ---------------------------------------------------------------------------------------------
  // What the other rings keep, and what the ring keeps longest
  // ---------------------------------------------------------------------------------------------

  /** Live ring `j` is shrunk before ring `i`: touched earlier, or listed first on a tie. */
  predicate Before(items: seq<Item>, j: nat, i: nat)
    requires j < |items| && i < |items|
  {
    !items[j].ended && (items[j].touched < items[i].touched || (items[j].touched == items[i].touched && j < i))
  }

  /** What ring `j` still holds when the loop first comes to ring `i`. */
  function Share(items: seq<Item>, floor: int, j: nat, i: nat): seq<Entry>
    requires j < |items| && i < |items|
  {
    if Before(items, j, i) then AtFloor(items[j], floor) else items[j].ring.contents
  }

  /** The bytes of the first `n` rings, ring `i` left out, when the loop first comes to ring `i`. */
  function Rest(items: seq<Item>, floor: int, i: nat, n: nat): nat
    requires i < |items| && n <= |items|
  {
    if n == 0 then 0
    else Rest(items, floor, i, n - 1) + if n - 1 == i then 0 else Size(Share(items, floor, n - 1, i))
  }

  function NextBudget(w: Window, floor: int, f: Scale): int {
    if f.shrink(w.maxBytes) < floor then floor else f.shrink(w.maxBytes)
  }

  /** The newest entry is too large for the floor, so that enough shrink steps would evict it. */
  predicate OverFloor(w: Window, floor: int) {
    w.contents != [] && |w.contents[|w.contents| - 1].payload| > floor
  }

  lemma ShrinkRingNewest(w: Window, floor: int, f: Scale)
    requires w.contents != []
    ensures var w', newest := ShrinkRing(w, floor, f), w.contents[|w.contents| - 1];
            if NextBudget(w, floor, f) < |newest.payload| then w'.contents == []
            else w'.contents != [] && w'.contents[|w'.contents| - 1] == newest && w'.maxBytes == NextBudget(w, floor, f)
  {
    EvictEmptiesExactly(w.(maxBytes := NextBudget(w, floor, f)));
  }

  /** The bytes the ring holds just before the shrink step that empties it. */
  function Kept(w: Window, floor: int, f: Scale): nat
    requires floor >= 0 && OverFloor(w, floor)
    decreases if w.maxBytes > 0 then w.maxBytes else 0
  {
    if NextBudget(w, floor, f) < |w.contents[|w.contents| - 1].payload| then Size(w.contents)
    else
      ShrinkRingNewest(w, floor, f);
      Kept(ShrinkRing(w, floor, f), floor, f)
  }

  lemma {:induction false} KeptWithin(w: Window, floor: int, f: Scale)
    requires floor >= 0 && OverFloor(w, floor)
    ensures Kept(w, floor, f) <= Size(w.contents)
    decreases if w.maxBytes > 0 then w.maxBytes else 0
  {
    if NextBudget(w, floor, f) >= |w.contents[|w.contents| - 1].payload| {
      ShrinkRingNewest(w, floor, f);
      KeptWithin(ShrinkRing(w, floor, f), floor, f);
      FitFits(w.contents, NextBudget(w, floor, f));
      SizeOfSuffix(ShrinkRing(w, floor, f).contents, w.contents);
    }
  }

  // ---------------------------------------------------------------------------------------------
  // The order of shrinking
  // ---------------------------------------------------------------------------------------------

  /** The loop shrinks the first candidate in this order. */
  lemma {:induction false} BestIsFirst(items: seq<Item>, floor: int, n: nat, j: nat)
    requires n <= |items| && j < n && Candidate(items[j], floor)
    ensures var b := Best(items, floor, n); b >= 0 && (b == j || Before(items, b, j))
  {
    BestIsOldest(items, floor, n - 1);
    if j < n - 1 { BestIsFirst(items, floor, n - 1, j); }
  }

  lemma {:induction false} RestSame(a: seq<Item>, b: seq<Item>, floor: int, i: nat, n: nat)
    requires |a| == |b| && i < |a| && n <= |a|
    requires forall j :: 0 <= j < n && j != i ==> Share(a, floor, j, i) == Share(b, floor, j, i)
    ensures Rest(a, floor, i, n) == Rest(b, floor, i, n)
  {
    if n > 0 { RestSame(a, b, floor, i, n - 1); }
  }

  lemma AtFloorWithin(item: Item, floor: int)
    ensures Size(AtFloor(item, floor)) <= Size(item.ring.contents)
    ensures !Candidate(item, floor) ==> AtFloor(item, floor) == item.ring.contents
  {
    FitFits(item.ring.contents, floor);
    SizeOfSuffix(AtFloor(item, floor), item.ring.contents);
  }

  lemma {:induction false} RestWithin(items: seq<Item>, floor: int, i: nat, n: nat)
    requires i < |items| && n <= |items|
    ensures var own := if i < n then Size(items[i].ring.contents) else 0;
            && Rest(items, floor, i, n) + own <= Total(items[..n])
            && ((forall j :: 0 <= j < n && Before(items, j, i) ==> !Candidate(items[j], floor)) ==>
                  Rest(items, floor, i, n) + own == Total(items[..n]))
  {
    if n > 0 {
      RestWithin(items, floor, i, n - 1);
      assert items[..n][..n - 1] == items[..n - 1];
      AtFloorWithin(items[n - 1], floor);
    }
  }

  /** Shrinking an earlier ring changes nothing of what counts for ring `i`. */
  lemma EarlierStep(items: seq<Item>, floor: int, f: Scale, b: nat, i: nat)
    requires i < |items| && b < |items| && b != i && Before(items, b, i)
    ensures Rest(ShrinkAt(items, b, floor, f), floor, i, |items|) == Rest(items, floor, i, |items|)
  {
    ShrinkRingAtFloor(items[b], floor, f);
    RestSame(ShrinkAt(items, b, floor, f), items, floor, i, |items|);
  }

  lemma OwnStep(items: seq<Item>, floor: int, f: Scale, i: nat)
    requires i < |items|
    ensures Rest(ShrinkAt(items, i, floor, f), floor, i, |items|) == Rest(items, floor, i, |items|)
  {
    RestSame(ShrinkAt(items, i, floor, f), items, floor, i, |items|);
  }

  // ---------------------------------------------------------------------------------------------
  // Exactly which rings are emptied
  // ---------------------------------------------------------------------------------------------

  /** Ring `i` does not fit beside the others, even with no more than it keeps longest. */
  predicate Crowded(items: seq<Item>, cap: int, floor: int, f: Scale, i: nat)
    requires floor >= 0 && i < |items| && OverFloor(items[i].ring, floor)
  {
    Rest(items, floor, i, |items|) + Kept(items[i].ring, floor, f) > cap
  }

  lemma NotYet(items: seq<Item>, cap: int, floor: int, f: Scale, i: nat)
    requires floor >= 0 && i < |items| && OverFloor(items[i].ring, floor) && Total(items) <= cap
    ensures !Crowded(items, cap, floor, f, i)
  {
    RestWithin(items, floor, i, |items|);
    KeptWithin(items[i].ring, floor, f);
    assert items[..|items|] == items;
  }

  /** When it is the ring's turn, all others stand at their share. */
  lemma OwnTurn(items: seq<Item>, floor: int, i: nat)
    requires i < |items| && Best(items, floor, |items|) == i
    ensures Rest(items, floor, i, |items|) + Size(items[i].ring.contents) == Total(items)
  {
    forall j | 0 <= j < |items| && Before(items, j, i) ensures !Candidate(items[j], floor) {
      if Candidate(items[j], floor) { BestIsFirst(items, floor, |items|, j); }
    }
    RestWithin(items, floor, i, |items|);
    assert items[..|items|] == items;
  }

  lemma StaysEmpty(items: seq<Item>, cap: int, floor: int, f: Scale, i: nat)
    requires floor >= 0 && i < |items| && items[i].ring.contents == []
    ensures |Shrink(items, cap, floor, f)| == |items| && Shrink(items, cap, floor, f)[i].ring.contents == []
  {
    ShrinkReduces(items, cap, floor, f);
    assert Reduced(items[i], Shrink(items, cap, floor, f)[i], floor);
  }

  lemma IsCandidate(item: Item, floor: int)
    requires !item.ended && OverFloor(item.ring, floor)
    ensures Candidate(item, floor)
  {
    var es := item.ring.contents;
    SizeOfSuffix([es[|es| - 1]], es);
  }

  /** A step on another ring, all of which are shrunk before. */
  lemma EarlierTurn(items: seq<Item>, cap: int, floor: int, f: Scale, b: nat, i: nat)
    requires floor >= 0 && i < |items| && b < |items| && b != i && Before(items, b, i)
    requires OverFloor(items[i].ring, floor)
    ensures var next := ShrinkAt(items, b, floor, f);
            next[i] == items[i] && (Crowded(next, cap, floor, f, i) <==> Crowded(items, cap, floor, f, i))
  {
    EarlierStep(items, floor, f, b, i);
  }

  /** A step on the ring itself: it is emptied when crowded, or is as crowded as before. */
  lemma OwnShrink(items: seq<Item>, cap: int, floor: int, f: Scale, i: nat)
    requires floor >= 0 && i < |items| && OverFloor(items[i].ring, floor)
    requires Best(items, floor, |items|) == i && Total(items) > cap
    ensures var next := ShrinkAt(items, i, floor, f);
            if next[i].ring.contents == [] then Crowded(items, cap, floor, f, i)
            else
              && OverFloor(next[i].ring, floor)
              && (Crowded(next, cap, floor, f, i) <==> Crowded(items, cap, floor, f, i))
  {
    OwnTurn(items, floor, i);
    OwnStep(items, floor, f, i);
    ShrinkRingNewest(items[i].ring, floor, f);
  }

  lemma FirstTurn(items: seq<Item>, floor: int, i: nat)
    requires i < |items| && !items[i].ended && OverFloor(items[i].ring, floor)
    ensures var b := Best(items, floor, |items|); b >= 0 && (b == i || Before(items, b, i))
  {
    IsCandidate(items[i], floor);
    BestIsFirst(items, floor, |items|, i);
  }

  lemma {:induction false} ShrinkEmptiesCrowded(items: seq<Item>, cap: int, floor: int, f: Scale, i: nat)
    requires floor >= 0 && i < |items| && !items[i].ended && OverFloor(items[i].ring, floor)
    ensures |Shrink(items, cap, floor, f)| == |items|
    ensures Shrink(items, cap, floor, f)[i].ring.contents == [] <==> Crowded(items, cap, floor, f, i)
    decreases Measure(items, floor)
  {
    if Total(items) <= cap {
      NotYet(items, cap, floor, f, i);
    } else {
      FirstTurn(items, floor, i);
      var b := Best(items, floor, |items|);
      var next := ShrinkAt(items, b, floor, f);
      ShrinkTerminates(items, floor, f);
      if b != i { EarlierTurn(items, cap, floor, f, b, i); } else { OwnShrink(items, cap, floor, f, i); }
      if next[i].ring.contents == [] {
        StaysEmpty(next, cap, floor, f, i);
      } else {
        ShrinkEmptiesCrowded(next, cap, floor, f, i);
      }
    }
  }

  /** A live ring is emptied if and only if its newest entry exceeds the floor and it is crowded out;
      when the cap cannot be met, that entry decides alone. */
  lemma ShrinkEmptiesExactly(items: seq<Item>, cap: int, floor: int, f: Scale, i: nat)
    requires floor >= 0 && i < |items| && !items[i].ended && items[i].ring.contents != []
    ensures var r := Shrink(items, cap, floor, f);
            && |r| == |items|
            && (r[i].ring.contents == [] <==> OverFloor(items[i].ring, floor) && Crowded(items, cap, floor, f, i))
            && (FloorTotal(items, floor) > cap ==> (r[i].ring.contents == [] <==> OverFloor(items[i].ring, floor)))
  {
    if OverFloor(items[i].ring, floor) {
      ShrinkEmptiesCrowded(items, cap, floor, f, i);
      if FloorTotal(items, floor) > cap {
        ShrinkToFloor(items, cap, floor, f, i);
        EmptyAtFloor(items[i], floor);
      }
    } else {
      FloorKeepsNewest(items, cap, floor, f, i);
    }
  }

  lemma EmptyAtFloor(item: Item, floor: int)
    requires !item.ended && item.ring.contents != []
    ensures AtFloor(item, floor) == [] <==> OverFloor(item.ring, floor)
  {
    FitKeepsNewest(item.ring.contents, floor);
  }

  // ---------------------------------------------------------------------------------------------
  // The whole policy
  // ---------------------------------------------------------------------------------------------

  lemma GrowKeepsItem(items: seq<Item>, active: string, cap: int, f: Scale, i: nat)
    requires i < |items|
    ensures var g := Grow(items, active, cap, f);
            |g| == |items| && g[i] == items[i].(ring := g[i].ring) && g[i].ring.contents == items[i].ring.contents
  {
  }

  lemma GrowKeepsRest(items: seq<Item>, active: string, cap: int, floor: int, f: Scale, i: nat)
    requires floor >= 0 && i < |items|
    ensures var g := Grow(items, active, cap, f);
            && |g| == |items| && g[i] == items[i].(ring := g[i].ring) && g[i].ring.contents == items[i].ring.contents
            && Rest(g, floor, i, |items|) == Rest(items, floor, i, |items|)
            && FloorTotal(g, floor) == FloorTotal(items, floor)
  {
    var g := Grow(items, active, cap, f);
    forall j | 0 <= j < |items|
      ensures |g| == |items| && g[j] == items[j].(ring := g[j].ring) && g[j].ring.contents == items[j].ring.contents
    {
      GrowKeepsItem(items, active, cap, f, j);
    }
    GrowAtFloor(items, active, cap, floor, f);
    RestSame(g, items, floor, i, |items|);
  }

  /**
   Exactly what the floor saves: balancing empties a live ring if and only if its newest entry alone
   is larger than the floor and the ring does not fit beside the others, even with no more than it
   keeps longest. When the cap cannot be met at all, every live ring with such an entry is emptied.
   */
  lemma BalanceEmptiesExactly(items: seq<Item>, active: string, cap: int, floor: int, f: Scale, i: nat)
    requires floor >= 0 && i < |items| && items[i].ring.contents != [] && !items[i].ended
    ensures var r, g := BalanceSpec(items, active, cap, floor, f), Grow(items, active, cap, f);
            && |r| == |g| == |items|
            && (r[i].ring.contents == [] <==>
                  OverFloor(items[i].ring, floor) &&
                  Rest(items, floor, i, |items|) + Kept(g[i].ring, floor, f) > cap)
            && (FloorTotal(items, floor) > cap ==> (r[i].ring.contents == [] <==> OverFloor(items[i].ring, floor)))
  {
    var g := Grow(items, active, cap, f);
    GrowKeepsRest(items, active, cap, floor, f, i);
    ShrinkEmptiesExactly(g, cap, floor, f, i);
  }
}
