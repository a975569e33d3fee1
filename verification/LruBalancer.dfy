/** `BalanceGlobalLRU` on the ring objects themselves, proved against `Balance.BalanceSpec`. */
module LruBalancer {
  import opened Ring
  import opened RingBuffers
  import opened Balance

  datatype LRUItem = LRUItem(sessionID: string, ended: bool, lastTouched: nat, ring: RingBuffer)

  ghost function Rings(items: seq<LRUItem>): set<RingBuffer> {
    set i | 0 <= i < |items| :: items[i].ring
  }

  ghost function Slices(items: seq<LRUItem>): set<array<Entry>>
    reads Rings(items)
  {
    set i | 0 <= i < |items| :: items[i].ring.entries
  }

  /** One ring object per session. */
  ghost predicate ValidItems(items: seq<LRUItem>)
    reads Rings(items), Slices(items)
  {
    && (forall i :: 0 <= i < |items| ==> items[i].ring.Valid())
    && (forall i, j :: 0 <= i < j < |items| ==> items[i].ring != items[j].ring)
  }

  ghost function ItemOf(item: LRUItem): Item
    reads item.ring
  {
    Item(item.sessionID, item.ended, item.lastTouched, item.ring.Value())
  }

  ghost function Values(items: seq<LRUItem>): (r: seq<Item>)
    reads Rings(items)
    ensures |r| == |items|
    ensures forall i :: 0 <= i < |items| ==> r[i] == ItemOf(items[i])
  {
    seq(|items|, (i: int) requires 0 <= i < |items| reads Rings(items) =>
      ItemOf(items[i]))
  }

  method GrowInPlace(ring: RingBuffer, totalCap: int, f: Scale)
    requires ring.Valid()
    modifies ring`maxBytes
    ensures ring.Valid() && ring.Value() == GrowRing(old(ring.Value()), totalCap, f)
  {
    var grown := f.grow(ring.maxBytes);
    if grown > totalCap {
      grown := totalCap;
    }
    ring.SetMaxBytes(grown);
  }

  method ShrinkInPlace(ring: RingBuffer, floorCap: int, f: Scale)
    requires ring.Valid()
    modifies ring`maxBytes, ring`bytes, ring`tail, ring`earliestSeq, ring`live
    ensures ring.Valid() && ring.Value() == ShrinkRing(old(ring.Value()), floorCap, f)
  {
    var newMax := f.shrink(ring.maxBytes);
    if newMax < floorCap {
      newMax := floorCap;
    }
    ring.SetMaxBytes(newMax);
    ring.EvictLocked();
  }

  // The methods below take the current values of the rings as a ghost argument, so that callers
  // reason about sequences of values and not about the heap.

  method TotalBytes(items: seq<LRUItem>, ghost vs: seq<Item>) returns (total: int)
    requires ValidItems(items) && Values(items) == vs
    ensures ValidItems(items) && Values(items) == vs
    ensures total == Total(vs)
  {
    total := 0;
    for i := 0 to |items|
      invariant total == Total(vs[..i])
    {
      assert vs[..i + 1][..i] == vs[..i];
      assert vs[i] == ItemOf(items[i]);
      total := total + items[i].ring.bytes;
    }
    assert vs[..|items|] == vs;
  }

  method GrowOne(items: seq<LRUItem>, k: nat, totalCap: int, f: Scale, ghost vs: seq<Item>)
    requires ValidItems(items) && Values(items) == vs && k < |items|
    modifies items[k].ring`maxBytes
    ensures ValidItems(items)
    ensures Values(items) == vs[k := vs[k].(ring := GrowRing(vs[k].ring, totalCap, f))]
  {
    GrowInPlace(items[k].ring, totalCap, f);
    forall i | 0 <= i < |items| && i != k
      ensures items[i].ring.Valid() && ItemOf(items[i]) == vs[i]
    {
      assert items[i].ring != items[k].ring;
    }
  }

  /** Grow the active ring's budget by a tenth, clamped at the cap, when the total is under the mark. */
  method GrowActive(items: seq<LRUItem>, activeSessionID: string, totalCap: int, f: Scale, ghost vs: seq<Item>)
    requires ValidItems(items) && Values(items) == vs
    modifies Rings(items)`maxBytes
    ensures ValidItems(items)
    ensures Values(items) == Grow(vs, activeSessionID, totalCap, f)
  {
    var totalBytes := TotalBytes(items, vs);
    if totalBytes < f.mark(totalCap) {
      for i := 0 to |items|
        invariant FindId(vs, activeSessionID, 0) == FindId(vs, activeSessionID, i)
        invariant unchanged(Rings(items))
      {
        assert vs[i] == ItemOf(items[i]);
        if items[i].sessionID == activeSessionID {
          GrowOne(items, i, totalCap, f, vs);
          return;
        }
      }
    }
  }

  /** The search reads no more of the items than this. */
  ghost predicate Shows(items: seq<LRUItem>, vs: seq<Item>)
    reads Rings(items)
  {
    && |vs| == |items|
    && forall i :: 0 <= i < |items| ==>
         && items[i].ended == vs[i].ended && items[i].lastTouched == vs[i].touched
         && items[i].ring.bytes == Size(vs[i].ring.contents)
  }

  lemma ItemsShown(items: seq<LRUItem>, vs: seq<Item>)
    requires ValidItems(items) && Values(items) == vs
    ensures Shows(items, vs)
  {
    forall i | 0 <= i < |items| ensures vs[i] == ItemOf(items[i]) && items[i].ring.bytes == Size(vs[i].ring.contents) {
      assert items[i].ring.Valid();
    }
  }

  /** One more item looked at. */
  lemma BestNext(vs: seq<Item>, floor: int, i: nat) returns (next: int)
    requires i < |vs|
    ensures next == Best(vs, floor, i + 1)
    ensures var best := Best(vs, floor, i);
            next == if vs[i].ended || Size(vs[i].ring.contents) <= floor then best
                    else if best == -1 || vs[i].touched < vs[best].touched then i
                    else best
  {
    next := Best(vs, floor, i + 1);
  }

  method Search(items: seq<LRUItem>, floorCap: int, ghost vs: seq<Item>) returns (best: int)
    requires Shows(items, vs)
    ensures best == Best(vs, floorCap, |vs|)
  {
    best := -1;
    for i := 0 to |items|
      invariant best == Best(vs, floorCap, i)
    {
      ghost var next := BestNext(vs, floorCap, i);
      if items[i].ended {
        continue;
      }
      var hasBytesAboveFloor := items[i].ring.bytes > floorCap;
      if !hasBytesAboveFloor {
        continue;
      }
      if best == -1 || items[i].lastTouched < items[best].lastTouched {
        best := i;
      }
    }
  }

  method FindCandidate(items: seq<LRUItem>, floorCap: int, ghost vs: seq<Item>) returns (best: int)
    requires ValidItems(items) && Values(items) == vs
    ensures best == Best(vs, floorCap, |vs|)
  {
    ItemsShown(items, vs);
    best := Search(items, floorCap, vs);
  }

  method ShrinkOne(items: seq<LRUItem>, b: nat, floorCap: int, f: Scale, ghost vs: seq<Item>, ghost next: seq<Item>)
    requires ValidItems(items) && Values(items) == vs && b < |items|
    requires next == ShrinkAt(vs, b, floorCap, f)
    modifies items[b].ring`maxBytes, items[b].ring`bytes, items[b].ring`tail, items[b].ring`earliestSeq
    modifies items[b].ring`live
    ensures ValidItems(items)
    ensures Values(items) == next
  {
    ShrinkInPlace(items[b].ring, floorCap, f);
    forall i | 0 <= i < |items| && i != b
      ensures items[i].ring.Valid() && ItemOf(items[i]) == vs[i]
    {
      assert items[i].ring != items[b].ring;
    }
  }

  ghost function AfterShrink(vs: seq<Item>, b: nat, cap: int, floor: int, f: Scale): (next: seq<Item>)
    requires floor >= 0 && b < |vs| && b == Best(vs, floor, |vs|) && Total(vs) > cap
    ensures next == ShrinkAt(vs, b, floor, f)
    ensures Shrink(next, cap, floor, f) == Shrink(vs, cap, floor, f)
    ensures Measure(next, floor) < Measure(vs, floor)
  {
    ShrinkTerminates(vs, floor, f);
    ShrinkAt(vs, b, floor, f)
  }

  method ShrinkBest(items: seq<LRUItem>, b: nat, totalCap: int, floorCap: int, f: Scale, ghost vs: seq<Item>)
    returns (ghost next: seq<Item>)
    requires ValidItems(items) && floorCap >= 0 && Values(items) == vs
    requires b < |vs| && b == Best(vs, floorCap, |vs|) && Total(vs) > totalCap
    modifies Rings(items)`maxBytes, Rings(items)`bytes, Rings(items)`tail, Rings(items)`earliestSeq, Rings(items)`live
    ensures ValidItems(items) && Values(items) == next
    ensures Shrink(next, totalCap, floorCap, f) == Shrink(vs, totalCap, floorCap, f)
    ensures Measure(next, floorCap) < Measure(vs, floorCap)
  {
    next := AfterShrink(vs, b, totalCap, floorCap, f);
    ShrinkOne(items, b, floorCap, f, vs, next);
  }

  /** One turn of the shrink loop; `done` when it breaks. */
  method ShrinkStep(items: seq<LRUItem>, totalCap: int, floorCap: int, f: Scale, ghost vs: seq<Item>)
    returns (done: bool, ghost next: seq<Item>)
    requires ValidItems(items) && floorCap >= 0 && Values(items) == vs
    modifies Rings(items)`maxBytes, Rings(items)`bytes, Rings(items)`tail, Rings(items)`earliestSeq, Rings(items)`live
    ensures ValidItems(items) && Values(items) == next
    ensures Shrink(next, totalCap, floorCap, f) == Shrink(vs, totalCap, floorCap, f)
    ensures done ==> Shrink(next, totalCap, floorCap, f) == next
    ensures !done ==> Measure(next, floorCap) < Measure(vs, floorCap)
  {
    var totalBytes := TotalBytes(items, vs);
    if totalBytes <= totalCap {
      return true, vs;
    }
    var bestItem := FindCandidate(items, floorCap, vs);
    if bestItem == -1 {
      return true, vs;
    }
    next := ShrinkBest(items, bestItem, totalCap, floorCap, f, vs);
    done := false;
  }

  method ShrinkUntilFits(items: seq<LRUItem>, totalCap: int, floorCap: int, f: Scale, ghost vs: seq<Item>)
    requires ValidItems(items) && floorCap >= 0 && Values(items) == vs
    modifies Rings(items)`maxBytes, Rings(items)`bytes, Rings(items)`tail, Rings(items)`earliestSeq, Rings(items)`live
    ensures ValidItems(items)
    ensures Values(items) == Shrink(vs, totalCap, floorCap, f)
  {
    var done := false;
    ghost var now := vs;
    while !done
      invariant ValidItems(items) && Values(items) == now
      invariant Shrink(now, totalCap, floorCap, f) == Shrink(vs, totalCap, floorCap, f)
      invariant done ==> Shrink(now, totalCap, floorCap, f) == now
      decreases !done, Measure(now, floorCap)
    {
      done, now := ShrinkStep(items, totalCap, floorCap, f, now);
    }
  }

  method BalanceGlobalLRU(items: seq<LRUItem>, activeSessionID: string, totalCap: int, floorCap: int, f: Scale)
    requires ValidItems(items) && floorCap >= 0
    modifies Rings(items)`maxBytes, Rings(items)`bytes, Rings(items)`tail, Rings(items)`earliestSeq, Rings(items)`live
    ensures ValidItems(items)
    ensures Values(items) == BalanceSpec(old(Values(items)), activeSessionID, totalCap, floorCap, f)
  {
    ghost var vs := Values(items);
    GrowActive(items, activeSessionID, totalCap, f, vs);
    ghost var grown := Grow(vs, activeSessionID, totalCap, f);
    ShrinkUntilFits(items, totalCap, floorCap, f, grown);
  }
}
