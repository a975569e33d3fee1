/**
 The global cache policy: below 80% of the cap the active ring's budget grows by a tenth;
 above the cap the least recently touched live ring over the floor loses a tenth of its budget,
 again and again, until the cap is met or every live ring is at or below the floor.
 */
module Balance {
  import opened Ring

  /** The three float conversions of the policy, kept abstract up to rounding. */
  datatype Factors = Factors(grow: int -> int, shrink: int -> int, mark: int -> int)

  /** `r` is so many tenths of `m`, off by less than two: a byte for truncation, less than one for the
      rounding of a float64 below 2^50. */
  predicate Tenths(r: int, n: int, m: int) {
    -20 < 10 * r - n * m < 20
  }

  ghost predicate SoundFactors(f: Factors) {
    && (forall m :: m >= 0 ==> f.grow(m) >= m)
    && (forall m :: if m > 0 then 0 <= f.shrink(m) < m else f.shrink(m) <= 0)
    && (forall m :: m >= 0 ==> f.mark(m) <= m)
    && (forall m :: 0 <= m < 0x4_0000_0000_0000 ==>
          Tenths(f.grow(m), 11, m) && Tenths(f.shrink(m), 9, m) && Tenths(f.mark(m), 8, m))
  }

  /** Exact tenths truncated to integers are one instance; float rounding gives others. */
  type Scale = f: Factors | SoundFactors(f)
    ghost witness Factors(m => m * 11 / 10, m => if m > 0 then m * 9 / 10 else 0, m => m * 8 / 10)

  datatype Item = Item(id: string, ended: bool, touched: nat, ring: Window)

  function Total(items: seq<Item>): nat {
    if items == [] then 0 else Total(items[..|items| - 1]) + Size(items[|items| - 1].ring.contents)
  }

  predicate Candidate(item: Item, floor: int) {
    !item.ended && Size(item.ring.contents) > floor
  }

  /** The candidate with the oldest touch among the first `n` items, the first such on a tie; -1 if none. */
  function Best(items: seq<Item>, floor: int, n: nat): (b: int)
    requires n <= |items|
    ensures -1 <= b < n
    ensures b >= 0 ==> Candidate(items[b], floor)
  {
    if n == 0 then -1
    else
      var b := Best(items, floor, n - 1);
      if Candidate(items[n - 1], floor) && (b == -1 || items[n - 1].touched < items[b].touched) then n - 1 else b
  }

  lemma {:induction false} BestIsOldest(items: seq<Item>, floor: int, n: nat)
    requires n <= |items|
    ensures var b := Best(items, floor, n);
            && (b >= 0 ==> forall j :: 0 <= j < n && Candidate(items[j], floor) ==>
                 items[b].touched <= items[j].touched)
            && (b == -1 ==> forall j :: 0 <= j < n ==> !Candidate(items[j], floor))
  {
    if n > 0 { BestIsOldest(items, floor, n - 1); }
  }

  function ShrinkRing(w: Window, floor: int, f: Scale): Window {
    var newMax := f.shrink(w.maxBytes);
    Evict(w.(maxBytes := if newMax < floor then floor else newMax))
  }

  function ShrinkAt(items: seq<Item>, b: nat, floor: int, f: Scale): seq<Item>
    requires b < |items|
  {
    items[b := items[b].(ring := ShrinkRing(items[b].ring, floor, f))]
  }

  /** How far the candidates are from the floor; every shrink step makes it smaller. */
  ghost function Excess(item: Item, floor: int): nat {
    if !Candidate(item, floor) then 0
    else if item.ring.maxBytes > floor then item.ring.maxBytes - floor + 1
    else 1
  }

  ghost function Measure(items: seq<Item>, floor: int): nat {
    if items == [] then 0 else Measure(items[..|items| - 1], floor) + Excess(items[|items| - 1], floor)
  }

  lemma {:induction false} MeasureUpdate(items: seq<Item>, floor: int, b: nat, item: Item)
    requires b < |items|
    ensures Measure(items[b := item], floor) == Measure(items, floor) - Excess(items[b], floor) + Excess(item, floor)
  {
    var n := |items| - 1;
    var after := items[b := item];
    if b == n {
      assert after[..n] == items[..n];
    } else {
      assert after[..n] == items[..n][b := item];
      MeasureUpdate(items[..n], floor, b, item);
    }
  }

  /** The case split behind termination: a budget above the floor shrinks strictly; a budget at
      or below it is reset to the floor and the eviction takes the ring out of the candidates. */
  lemma ShrinkReducesExcess(item: Item, floor: int, f: Scale)
    requires floor >= 0 && Candidate(item, floor)
    ensures Excess(item.(ring := ShrinkRing(item.ring, floor, f)), floor) < Excess(item, floor)
  {
    var w := item.ring;
    var newMax := if f.shrink(w.maxBytes) < floor then floor else f.shrink(w.maxBytes);
    FitFits(w.contents, newMax);
  }

  lemma ShrinkTerminates(items: seq<Item>, floor: int, f: Scale)
    requires floor >= 0 && Best(items, floor, |items|) >= 0
    ensures Measure(ShrinkAt(items, Best(items, floor, |items|), floor, f), floor) < Measure(items, floor)
  {
    var b := Best(items, floor, |items|);
    ShrinkReducesExcess(items[b], floor, f);
    MeasureUpdate(items, floor, b, items[b].(ring := ShrinkRing(items[b].ring, floor, f)));
  }

  function Shrink(items: seq<Item>, cap: int, floor: int, f: Scale): (r: seq<Item>)
    requires floor >= 0
    decreases Measure(items, floor)
  {
    var b := Best(items, floor, |items|);
    if Total(items) <= cap || b == -1 then items
    else
      ShrinkTerminates(items, floor, f);
      Shrink(ShrinkAt(items, b, floor, f), cap, floor, f)
  }

  function FindId(items: seq<Item>, id: string, from: nat): (k: int)
    requires from <= |items|
    ensures k == -1 || from <= k < |items|
    decreases |items| - from
  {
    if from == |items| then -1 else if items[from].id == id then from else FindId(items, id, from + 1)
  }

  function GrowRing(w: Window, cap: int, f: Scale): Window {
    var grown := f.grow(w.maxBytes);
    w.(maxBytes := if grown > cap then cap else grown)
  }

  function Grow(items: seq<Item>, active: string, cap: int, f: Scale): seq<Item> {
    var k := FindId(items, active, 0);
    if Total(items) < f.mark(cap) && k != -1
    then items[k := items[k].(ring := GrowRing(items[k].ring, cap, f))]
    else items
  }

  function BalanceSpec(items: seq<Item>, active: string, cap: int, floor: int, f: Scale): seq<Item>
    requires floor >= 0
  {
    Shrink(Grow(items, active, cap, f), cap, floor, f)
  }
}
