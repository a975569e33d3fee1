/**
 The circular buffer itself. `head` is the next write position and `tail` the oldest live entry;
 the buffer is empty exactly when they are equal, and a full slice is doubled before it could
 look empty. Every method is proved against the operation of `Ring` on the buffer's value.
 */
module RingBuffers {
  import opened Base
  import opened Ring

  const INITIAL_SLOTS := 128

  lemma NextSlot(i: nat, slots: nat)
    requires i < slots
    ensures (i + 1) % slots == if i + 1 == slots then 0 else i + 1
  {
  }

  function LiveCount(slots: nat, head: nat, tail: nat): int {
    if tail <= head then head - tail else slots - tail + head
  }

  function LiveSlot(slots: nat, tail: nat, i: nat): int {
    if tail + i < slots then tail + i else tail + i - slots
  }

  ghost predicate Positions(slots: nat, head: nat, tail: nat) {
    if slots == 0 then head == tail == 0 else slots >= 2 && head < slots && tail < slots
  }

  /** The live part of the slice `a`, from `tail` up to `head`, wrapping around its end. */
  ghost function Live(a: seq<Entry>, head: nat, tail: nat): (r: seq<Entry>)
    requires Positions(|a|, head, tail)
    ensures |r| == LiveCount(|a|, head, tail)
  {
    seq(LiveCount(|a|, head, tail),
        i requires 0 <= i < LiveCount(|a|, head, tail) => a[LiveSlot(|a|, tail, i)])
  }

  class RingBuffer {
    var entries: array<Entry>
    var head: nat
    var tail: nat
    var bytes: int
    var maxBytes: int
    var earliestSeq: uint64
    var latestSeq: uint64
    var lastTouched: nat
    ghost var history: seq<Entry>    // every entry ever appended
    ghost var live: seq<Entry>       // the entries between tail and head

    /** No slots yet (then nothing is live), or at least two slots and both positions inside. */
    ghost predicate Shape()
      reads `entries, `head, `tail
    {
      Positions(entries.Length, head, tail)
    }

    ghost function Count(): nat
      reads `entries, `head, `tail
      requires Shape()
    {
      LiveCount(entries.Length, head, tail)
    }

    ghost function Slot(i: nat): (k: nat)
      reads `entries, `head, `tail
      requires Shape() && i < Count()
      ensures k < entries.Length
    {
      LiveSlot(entries.Length, tail, i)
    }

    /** The live entries, oldest first. */
    ghost function Contents(): (r: seq<Entry>)
      reads `entries, `head, `tail, entries
      requires Shape()
      ensures |r| == Count()
      ensures tail != head ==> r[0] == entries[tail]
    {
      Live(entries[..], head, tail)
    }

    lemma ContentsAt()
      requires Shape()
      ensures forall i :: 0 <= i < Count() ==> Contents()[i] == entries[Slot(i)]
    {
    }

    ghost function Value(): Window
      reads `live, `maxBytes, `earliestSeq, `latestSeq, `history
    {
      Window(live, maxBytes, earliestSeq, latestSeq, history)
    }

    ghost predicate Valid()
      reads this, entries
    {
      Shape() && live == Contents() && bytes == Size(live)
    }

    constructor (maxBytes: int, now: nat)
      ensures Valid() && fresh(entries)
      ensures Value() == NewWindow(maxBytes) && entries.Length == 128
      ensures lastTouched == now
    {
      entries := new Entry[INITIAL_SLOTS];
      head, tail, bytes := 0, 0, 0;
      this.maxBytes := maxBytes;
      earliestSeq, latestSeq := 0, 0;
      lastTouched := now;
      history, live := [], [];
    }

    method DropOldest()
      requires Shape() && tail != head && bytes == Size(Contents())
      modifies this`bytes, this`tail
      ensures Shape() && bytes == Size(Contents())
      ensures Contents() == old(Contents()[1..])
    {
      ghost var before := Contents();
      ContentsAt();
      bytes := bytes - |entries[tail].payload|;
      NextSlot(tail, entries.Length);
      tail := (tail + 1) % entries.Length;
      ContentsAt();
      assert Contents() == before[1..];
    }

    /** The eviction loop: drop oldest entries until `room` is met or nothing is left. */
    method DropUntil(room: int)
      requires Shape() && bytes == Size(Contents())
      modifies this`bytes, this`tail
      ensures Shape() && bytes == Size(Contents())
      ensures Contents() == Fit(old(Contents()), room)
    {
      while tail != head && bytes > room
        invariant Shape() && bytes == Size(Contents())
        invariant Fit(Contents(), room) == Fit(old(Contents()), room)
        decreases Count()
      {
        DropOldest();
      }
    }

    /** Copy the live entries, oldest first, to the front of a longer slice. */
    method CopyLive(newEntries: array<Entry>) returns (n: nat)
      requires Shape() && tail != head
      requires newEntries != entries && newEntries.Length > Count()
      modifies newEntries
      ensures n == Count()
      ensures forall i :: 0 <= i < n ==> newEntries[i] == Contents()[i]
    {
      ContentsAt();
      n := 0;
      var t := tail;
      while true
        invariant 0 <= n < Count() && t == Slot(n)
        invariant forall i :: 0 <= i < n ==> newEntries[i] == Contents()[i]
        decreases Count() - n
      {
        newEntries[n] := entries[t];
        n := n + 1;
        NextSlot(t, entries.Length);
        t := (t + 1) % entries.Length;
        if t == head {
          break;
        }
      }
    }

    method Grow()
      requires Shape() && entries.Length > 0
      requires (head + 1) % entries.Length == tail
      modifies this`entries, this`head, this`tail
      ensures Shape() && Contents() == old(Contents())
      ensures fresh(entries) && entries.Length == 2 * old(entries.Length)
      ensures (head + 1) % entries.Length != tail
    {
      NextSlot(head, entries.Length);
      ghost var live := Contents();
      var newEntries := new Entry[entries.Length * 2];
      var n := CopyLive(newEntries);
      entries := newEntries;
      tail := 0;
      head := n;
      NextSlot(head, entries.Length);
      ContentsAt();
      assert Contents() == live;
    }

    method Store(entry: Entry)
      requires Shape() && entries.Length > 0 && (head + 1) % entries.Length != tail
      modifies this`head, entries
      ensures Shape() && tail != head
      ensures Contents() == old(Contents()) + [entry]
    {
      ghost var before := Contents();
      ContentsAt();
      NextSlot(head, entries.Length);
      entries[head] := entry;
      head := (head + 1) % entries.Length;
      ContentsAt();
      assert Contents() == before + [entry];
    }

    /** Make sure one more entry can be stored, by allocating or doubling the slice. */
    method EnsureSlot()
      requires Shape()
      modifies this`entries, this`head, this`tail
      ensures Shape() && Contents() == old(Contents())
      ensures entries == old(entries) || fresh(entries)
      ensures entries.Length > 0 && (head + 1) % entries.Length != tail
    {
      if entries.Length == 0 {
        entries := new Entry[INITIAL_SLOTS];
        NextSlot(head, entries.Length);
        assert Contents() == [];
      } else if (head + 1) % entries.Length == tail {
        Grow();
      }
    }

    /** The part of `Append` that moves entries: evict what does not fit, then store. */
    method Place(entry: Entry)
      requires Shape() && bytes == Size(Contents())
      modifies this`entries, this`head, this`tail, this`bytes, entries
      ensures Shape() && tail != head && bytes == Size(Contents())
      ensures entries == old(entries) || fresh(entries)
      ensures Contents() == Fit(old(Contents()), maxBytes - |entry.payload|) + [entry]
    {
      var entrySize := |entry.payload|;
      DropUntil(maxBytes - entrySize);
      EnsureSlot();
      ghost var kept := Contents();
      Store(entry);
      bytes := bytes + entrySize;
      SizeConcat(kept, [entry]);
    }

    method Append(entry: Entry, now: nat)
      requires Valid()
      modifies this, entries
      ensures Valid()
      ensures entries == old(entries) || fresh(entries)
      ensures Value() == Ring.Append(old(Value()), entry)
      ensures lastTouched == now
    {
      Place(entry);
      latestSeq := entry.seqNo;
      earliestSeq := entries[tail].seqNo;
      lastTouched := now;
      history, live := history + [entry], Contents();
    }

    method SetMaxBytes(newMax: int)
      requires Valid()
      modifies this`maxBytes
      ensures Valid()
      ensures Value() == old(Value()).(maxBytes := newMax)
    {
      maxBytes := newMax;
    }

    /** Evict the oldest entries until the budget is met, to empty if need be. */
    method EvictLocked()
      requires Valid()
      modifies this`bytes, this`tail, this`earliestSeq, this`live
      ensures Valid()
      ensures Value() == Evict(old(Value()))
    {
      DropUntil(maxBytes);
      live := Contents();
      if tail == head {
        assert Contents() == [];
        bytes := 0;
        if latestSeq != 0 {
          earliestSeq := Succ64(latestSeq);
        }
        return;
      }
      earliestSeq := entries[tail].seqNo;
    }

    method AllEntriesLocked() returns (res: seq<Entry>)
      requires Valid()
      ensures res == live
    {
      if head == tail || entries.Length == 0 {
        return [];
      }
      ContentsAt();
      res := [];
      var t := tail;
      while true
        invariant 0 <= |res| < Count() && t == Slot(|res|)
        invariant forall i :: 0 <= i < |res| ==> res[i] == live[i]
        decreases Count() - |res|
      {
        res := res + [entries[t]];
        NextSlot(t, entries.Length);
        t := (t + 1) % entries.Length;
        if t == head {
          break;
        }
      }
    }

    method Replay(lastSeq: uint64) returns (r: Replayed)
      requires Valid()
      ensures r == Ring.Replay(Value(), lastSeq)
    {
      if lastSeq == 0 {
        var all := AllEntriesLocked();
        return Replayed(all, true, earliestSeq, latestSeq);
      }
      if Succ64(lastSeq) < earliestSeq {
        return Replayed([], false, earliestSeq, latestSeq);
      }
      var res := [];
      var all := AllEntriesLocked();
      for i := 0 to |all|
        invariant After(all, lastSeq) == res + After(all[i..], lastSeq)
      {
        assert all[i..][1..] == all[i + 1..];
        if all[i].seqNo > lastSeq {
          res := res + [all[i]];
        }
      }
      return Replayed(res, true, earliestSeq, latestSeq);
    }
  }
}
