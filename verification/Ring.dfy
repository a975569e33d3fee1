/**
 The abstract value of a session ring buffer: the live entries, the byte budget, the sequence
 window reported to clients, and every entry ever appended.
 */
module Ring {
  import opened Base

  datatype EntryKind = EventEntry | PtyEntry

  datatype Entry = Entry(seqNo: uint64, kind: EntryKind, ts: int, payload: seq<byte>)

  datatype Window = Window(
    contents: seq<Entry>,
    maxBytes: int,
    earliest: uint64,
    latest: uint64,
    history: seq<Entry>)

  datatype Replayed = Replayed(entries: seq<Entry>, ok: bool, earliest: uint64, latest: uint64)

  function Size(es: seq<Entry>): nat {
    if es == [] then 0 else |es[0].payload| + Size(es[1..])
  }

  /** The longest suffix of `es` whose payloads fit into `room` bytes; empty when none does. */
  function Fit(es: seq<Entry>, room: int): seq<Entry> {
    if es == [] || Size(es) <= room then es else Fit(es[1..], room)
  }

  lemma {:induction false} FitFits(es: seq<Entry>, room: int)
    ensures IsSuffix(Fit(es, room), es)
    ensures Fit(es, room) == [] || Size(Fit(es, room)) <= room
  {
    if es != [] && Size(es) > room { FitFits(es[1..], room); }
  }

  lemma {:induction false} FitLongest(es: seq<Entry>, room: int, longer: seq<Entry>)
    requires IsSuffix(longer, es) && |longer| > |Fit(es, room)|
    ensures Size(longer) > room
  {
    FitFits(es, room);
    if longer != es {
      assert longer == es[1..][|es| - 1 - |longer|..];
      FitLongest(es[1..], room, longer);
    }
  }

  /** Taking a sequence down in two steps is taking it down at once. */
  lemma {:induction false} FitTwice(es: seq<Entry>, first: int, second: int)
    requires second <= first
    ensures Fit(Fit(es, first), second) == Fit(es, second)
  {
    if es != [] && Size(es) > first { FitTwice(es[1..], first, second); }
  }

  ghost predicate IsSuffix(a: seq<Entry>, b: seq<Entry>) {
    |a| <= |b| && forall i :: 0 <= i < |a| ==> a[i] == b[|b| - |a| + i]
  }

  ghost predicate IsPrefix(a: seq<Entry>, b: seq<Entry>) {
    |a| <= |b| && b[..|a|] == a
  }

  function Append(w: Window, e: Entry): Window {
    var kept := Fit(w.contents, w.maxBytes - |e.payload|) + [e];
    w.(contents := kept, earliest := kept[0].seqNo, latest := e.seqNo, history := w.history + [e])
  }

  /** Evict down to the current budget, possibly to empty; an emptied ring keeps its window. */
  function Evict(w: Window): Window {
    var kept := Fit(w.contents, w.maxBytes);
    w.(contents := kept,
       earliest := if kept != [] then kept[0].seqNo
                   else if w.latest != 0 then Succ64(w.latest)
                   else w.earliest)
  }

  function After(es: seq<Entry>, lastSeq: uint64): seq<Entry> {
    if es == [] then []
    else if es[0].seqNo > lastSeq then [es[0]] + After(es[1..], lastSeq)
    else After(es[1..], lastSeq)
  }

  function Replay(w: Window, lastSeq: uint64): Replayed {
    if lastSeq == 0 then Replayed(w.contents, true, w.earliest, w.latest)
    else if Succ64(lastSeq) < w.earliest then Replayed([], false, w.earliest, w.latest)
    else Replayed(After(w.contents, lastSeq), true, w.earliest, w.latest)
  }

  function NewWindow(maxBytes: int): Window {
    Window([], maxBytes, 0, 0, [])
  }

  // ---------------------------------------------------------------------------------------------
  // What every operation keeps
  // ---------------------------------------------------------------------------------------------

  /** The live entries are the newest part of the history, and the window describes them. */
  ghost predicate Consistent(w: Window) {
    && IsSuffix(w.contents, w.history)
    && (w.history == [] ==> w.earliest == 0 && w.latest == 0)
    && (w.history != [] ==> w.latest == w.history[|w.history| - 1].seqNo)
    && (w.contents != [] ==> w.earliest == w.contents[0].seqNo)
    && (w.contents == [] && w.latest != 0 ==> w.earliest == Succ64(w.latest))
  }

  /** Bytes never exceed the budget, except that a single entry may be larger than it. */
  ghost predicate WithinBudget(w: Window) {
    Size(w.contents) <= w.maxBytes || |w.contents| == 1
  }

  lemma {:induction false} SizeConcat(a: seq<Entry>, b: seq<Entry>)
    ensures Size(a + b) == Size(a) + Size(b)
  {
    if a == [] {
      assert a + b == b;
    } else {
      assert (a + b)[1..] == a[1..] + b;
      SizeConcat(a[1..], b);
    }
  }

  lemma SizeOfSuffix(a: seq<Entry>, b: seq<Entry>)
    requires IsSuffix(a, b)
    ensures Size(a) <= Size(b)
  {
    var k := |b| - |a|;
    SizeConcat(b[..k], a);
    assert b == b[..k] + a;
  }

  lemma SuffixTransitive(a: seq<Entry>, b: seq<Entry>, c: seq<Entry>)
    requires IsSuffix(a, b) && IsSuffix(b, c)
    ensures IsSuffix(a, c)
  {
  }

  lemma SuffixExtend(a: seq<Entry>, b: seq<Entry>, e: Entry)
    requires IsSuffix(a, b)
    ensures IsSuffix(a + [e], b + [e])
  {
  }

  lemma AppendKeeps(w: Window, e: Entry)
    requires Consistent(w)
    ensures Consistent(Append(w, e))
    ensures WithinBudget(Append(w, e))
    ensures IsSuffix(Append(w, e).contents, w.contents + [e])
    ensures Append(w, e).contents != []
  {
    var kept := Fit(w.contents, w.maxBytes - |e.payload|);
    FitFits(w.contents, w.maxBytes - |e.payload|);
    assert Size(kept + [e]) == Size(kept) + |e.payload| by { SizeConcat(kept, [e]); }
    assert IsSuffix(kept + [e], w.contents + [e]) by { SuffixExtend(kept, w.contents, e); }
    assert IsSuffix(kept + [e], w.history + [e]) by {
      SuffixTransitive(kept, w.contents, w.history);
      SuffixExtend(kept, w.history, e);
    }
  }

  /** The bytes of a list are the sum of its payload lengths. */
  lemma SizeOfOneMore(es: seq<Entry>, e: Entry)
    ensures Size([]) == 0 && Size(es + [e]) == Size(es) + |e.payload|
  {
    SizeConcat(es, [e]);
    assert Size([e]) == |e.payload| + Size([e][1..]) && [e][1..] == [];
  }

  /**
   An append drops nothing that still fits beside the new entry: with room for everything it adds
   the entry, and otherwise any longer part of the old contents would be too much beside it.
   */
  lemma AppendDropsOnlyWhatMust(w: Window, e: Entry)
    ensures var w' := Append(w, e);
            && w'.maxBytes == w.maxBytes && w'.history == w.history + [e]
            && w'.contents != [] && w'.contents[|w'.contents| - 1] == e
            && IsSuffix(w'.contents[..|w'.contents| - 1], w.contents)
            && (Size(w.contents) + |e.payload| <= w.maxBytes ==> w'.contents == w.contents + [e])
            && forall longer :: IsSuffix(longer, w.contents) && |longer| >= |w'.contents| ==>
                 Size(longer) + |e.payload| > w.maxBytes
  {
    var w', room := Append(w, e), w.maxBytes - |e.payload|;
    FitFits(w.contents, room);
    assert w'.contents[..|w'.contents| - 1] == Fit(w.contents, room);
    forall longer | IsSuffix(longer, w.contents) && |longer| >= |w'.contents|
      ensures Size(longer) + |e.payload| > w.maxBytes
    {
      FitLongest(w.contents, room, longer);
    }
  }

  /** An eviction drops no more than the budget demands, and nothing but contents changes. */
  lemma EvictDropsOnlyWhatMust(w: Window)
    ensures var w' := Evict(w);
            && w'.maxBytes == w.maxBytes && w'.history == w.history && w'.latest == w.latest
            && IsSuffix(w'.contents, w.contents)
            && (w'.contents == [] || Size(w'.contents) <= w.maxBytes)
            && forall longer :: IsSuffix(longer, w.contents) && |longer| > |w'.contents| ==> Size(longer) > w.maxBytes
  {
    FitFits(w.contents, w.maxBytes);
    forall longer | IsSuffix(longer, w.contents) && |longer| > |Evict(w).contents| ensures Size(longer) > w.maxBytes {
      FitLongest(w.contents, w.maxBytes, longer);
    }
  }

  lemma EvictKeeps(w: Window)
    requires Consistent(w)
    ensures Consistent(Evict(w))
    ensures IsSuffix(Evict(w).contents, w.contents)
    ensures Size(Evict(w).contents) <= w.maxBytes || Evict(w).contents == []
    ensures Size(w.contents) <= w.maxBytes ==> Evict(w) == w
  {
    FitFits(w.contents, w.maxBytes);
    SuffixTransitive(Fit(w.contents, w.maxBytes), w.contents, w.history);
  }

  lemma {:induction false} FitKeepsNewest(es: seq<Entry>, room: int)
    requires es != []
    ensures Fit(es, room) == [] <==> |es[|es| - 1].payload| > room
    ensures Fit(es, room) != [] ==> Fit(es, room)[|Fit(es, room)| - 1] == es[|es| - 1]
  {
    if |es| == 1 {
      assert Size(es) == |es[0].payload|;
    } else {
      SizeConcat(es[..|es| - 1], [es[|es| - 1]]);
      assert es == es[..|es| - 1] + [es[|es| - 1]];
      if Size(es) > room { FitKeepsNewest(es[1..], room); }
    }
  }

  /** Eviction empties a ring exactly when its newest entry alone is over the budget. */
  lemma EvictEmptiesExactly(w: Window)
    requires w.contents != []
    ensures Evict(w).contents == [] <==> |w.contents[|w.contents| - 1].payload| > w.maxBytes
    ensures Evict(w).contents != [] ==>
      Evict(w).contents[|Evict(w).contents| - 1] == w.contents[|w.contents| - 1]
  {
    FitKeepsNewest(w.contents, w.maxBytes);
  }

  // ---------------------------------------------------------------------------------------------
  // Replay against the whole history
  // ---------------------------------------------------------------------------------------------

  ghost predicate Ascending(es: seq<Entry>) {
    forall i, j :: 0 <= i < j < |es| ==> es[i].seqNo < es[j].seqNo
  }

  /** Entries reach a ring through the sequence gate, which only lets positive numbers in. */
  ghost predicate Positive(es: seq<Entry>) {
    forall i :: 0 <= i < |es| ==> es[i].seqNo > 0
  }

  lemma {:induction false} AfterConcat(a: seq<Entry>, b: seq<Entry>, lastSeq: uint64)
    ensures After(a + b, lastSeq) == After(a, lastSeq) + After(b, lastSeq)
  {
    if a == [] {
      assert a + b == b;
    } else {
      assert (a + b)[1..] == a[1..] + b;
      AfterConcat(a[1..], b, lastSeq);
    }
  }

  lemma {:induction false} AfterNone(es: seq<Entry>, lastSeq: uint64)
    requires forall e :: e in es ==> e.seqNo <= lastSeq
    ensures After(es, lastSeq) == []
  {
    if es != [] { AfterNone(es[1..], lastSeq); }
  }

  lemma {:induction false} AfterAll(es: seq<Entry>, lastSeq: uint64)
    requires forall e :: e in es ==> e.seqNo > lastSeq
    ensures After(es, lastSeq) == es
  {
    if es != [] { AfterAll(es[1..], lastSeq); }
  }

  lemma {:induction false} AfterMember(es: seq<Entry>, lastSeq: uint64, e: Entry)
    requires e in es && e.seqNo > lastSeq
    ensures After(es, lastSeq) != []
  {
    if es[0].seqNo <= lastSeq { AfterMember(es[1..], lastSeq, e); }
  }

  lemma EvictedBelow(w: Window, lastSeq: uint64)
    requires Consistent(w) && Ascending(w.history) && Positive(w.history) && lastSeq > 0
    requires Replay(w, lastSeq).ok
    requires w.contents == [] && w.latest == MAX_UINT64 ==> lastSeq >= w.latest
    ensures forall i :: 0 <= i < |w.history| - |w.contents| ==> w.history[i].seqNo <= lastSeq
  {
    var n := |w.history| - |w.contents|;
    if w.contents != [] {
      assert w.contents[0] == w.history[n];
    }
  }

  lemma AfterSplit(w: Window, lastSeq: uint64)
    requires IsSuffix(w.contents, w.history)
    requires forall i :: 0 <= i < |w.history| - |w.contents| ==> w.history[i].seqNo <= lastSeq
    ensures After(w.history, lastSeq) == After(w.contents, lastSeq)
  {
    var evicted := w.history[..|w.history| - |w.contents|];
    assert w.history == evicted + w.contents;
    AfterConcat(evicted, w.contents, lastSeq);
    AfterNone(evicted, lastSeq);
  }

  /**
   A successful replay from `lastSeq > 0` returns exactly the entries ever appended beyond
   `lastSeq`, unless the ring was emptied when its newest number was the last uint64: then
   `latest + 1` wraps to 0 and every attach looks available. The exception is exact.
   */
  lemma ReplayComplete(w: Window, lastSeq: uint64)
    requires Consistent(w) && Ascending(w.history) && Positive(w.history) && lastSeq > 0
    ensures (Replay(w, lastSeq).ok ==> Replay(w, lastSeq).entries == After(w.history, lastSeq))
       <==> !(w.contents == [] && w.latest == MAX_UINT64 && lastSeq < w.latest)
  {
    if w.contents == [] && w.latest == MAX_UINT64 && lastSeq < w.latest {
      AfterMember(w.history, lastSeq, w.history[|w.history| - 1]);
    } else if Replay(w, lastSeq).ok {
      EvictedBelow(w, lastSeq);
      AfterSplit(w, lastSeq);
    }
  }

  /**
   When the history is numbered 1, 2, 3, ..., a refused replay means that the first entry the
   client needs was appended and has been evicted. The one refusal without cause is
   `lastSeq` equal to the last uint64, where `lastSeq + 1` wraps to 0.
   */
  lemma RefusalHasCause(w: Window, lastSeq: uint64)
    requires Consistent(w)
    requires forall i :: 0 <= i < |w.history| ==> w.history[i].seqNo == i + 1
    requires !Replay(w, lastSeq).ok
    ensures lastSeq != MAX_UINT64 <==>
            exists i :: 0 <= i < |w.history| - |w.contents| && w.history[i].seqNo == lastSeq + 1
  {
    if lastSeq != MAX_UINT64 {
      if w.contents != [] {
        assert w.contents[0] == w.history[|w.history| - |w.contents|];
      }
      assert w.history[lastSeq].seqNo == lastSeq + 1;
    }
  }

  /**
   A client that has seen `lastSeq` is served from these entries: it wants everything, or nothing was
   ever appended; with live entries, the oldest of them is at most the first number it needs; with
   none, the newest ever appended is no news to it. The last uint64 is apart, for the client's
   number as for the ring's, since adding one to it gives 0.
   */
  ghost predicate Answered(w: Window, lastSeq: uint64) {
    || lastSeq == 0 || w.history == []
    || (w.contents != [] && lastSeq != MAX_UINT64 && w.contents[0].seqNo <= lastSeq + 1)
    || (w.contents == [] && w.history != [] &&
        var newest := w.history[|w.history| - 1].seqNo;
        newest == MAX_UINT64 || newest <= lastSeq < MAX_UINT64)
  }

  /** Exactly when a replay is answered, in terms of the entries, and what a refusal reports. */
  lemma ReplayAnsweredExactly(w: Window, lastSeq: uint64)
    requires Consistent(w) && Positive(w.history)
    ensures var r := Replay(w, lastSeq);
            && (r.ok <==> Answered(w, lastSeq))
            && (lastSeq == 0 ==> r.entries == w.contents)
            && (!r.ok ==>
                  && r.entries == [] && w.history != []
                  && r.latest == w.history[|w.history| - 1].seqNo
                  && r.earliest == if w.contents != [] then w.contents[0].seqNo else r.latest + 1)
  {
    if w.contents != [] {
      assert w.contents[0] == w.history[|w.history| - |w.contents|];
    }
  }

  /** An entry beyond `lastSeq` is gone. */
  ghost predicate MissesSome(w: Window, lastSeq: uint64) {
    exists i :: 0 <= i < |w.history| - |w.contents| && w.history[i].seqNo > lastSeq
  }

  /**
   A refusal is said to mean that history is missing. It is refused whenever an entry beyond
   `lastSeq` is gone; it is refused without cause if and only if the oldest live entry is not the
   next number and nothing beyond `lastSeq` is gone: numbers that were never stored count as missing.
   */
  lemma RefusalExactly(w: Window, lastSeq: uint64)
    requires Consistent(w) && Ascending(w.history) && Positive(w.history)
    requires 0 < lastSeq < MAX_UINT64 && w.latest != MAX_UINT64
    ensures MissesSome(w, lastSeq) ==> !Replay(w, lastSeq).ok
    ensures !Replay(w, lastSeq).ok && !MissesSome(w, lastSeq) <==>
            w.contents != [] && lastSeq + 1 < w.contents[0].seqNo &&
            (|w.contents| == |w.history| || w.history[|w.history| - |w.contents| - 1].seqNo <= lastSeq)
  {
    ReplayAnsweredExactly(w, lastSeq);
    var n := |w.history| - |w.contents|;
    if w.contents != [] {
      assert w.contents[0] == w.history[n];
    }
    if n > 0 && w.history[n - 1].seqNo > lastSeq {
      assert MissesSome(w, lastSeq);
    }
  }

  /** Events 7 and 9 with a state change between them, and the first evicted: a client that has seen
      7 is refused, though it misses nothing. */
  lemma RefusedWithNothingMissing(first: Entry, second: Entry, maxBytes: int)
    requires first.seqNo == 7 && second.seqNo == 9 && |first.payload| + |second.payload| > maxBytes
    ensures var w := Append(Append(NewWindow(maxBytes), first), second);
            !Replay(w, 7).ok && After(w.history, 7) == w.contents == [second] && !MissesSome(w, 7)
  {
    var w1 := Append(NewWindow(maxBytes), first);
    assert w1.contents == [first];
    SizeOfOneMore([], first);
    assert [] + [first] == [first];
    assert Fit([first], maxBytes - |second.payload|) == Fit([first][1..], maxBytes - |second.payload|);
    assert [first][1..] == [];
    var w := Append(w1, second);
    assert w.contents == [second] && w.history == [first, second];
    AfterConcat([first], [second], 7);
    AfterNone([first], 7);
    AfterAll([second], 7);
    assert [first] + [second] == w.history;
  }

  // ---------------------------------------------------------------------------------------------
  // Whole runs of one ring
  // ---------------------------------------------------------------------------------------------

  datatype RingOp = DoAppend(e: Entry) | DoEvict | SetBudget(maxBytes: int)

  function Apply(w: Window, op: RingOp): Window {
    match op
    case DoAppend(e) => Append(w, e)
    case DoEvict => Evict(w)
    case SetBudget(m) => w.(maxBytes := m)
  }

  function Run(w: Window, ops: seq<RingOp>): Window
    decreases |ops|
  {
    if ops == [] then w else Run(Apply(w, ops[0]), ops[1..])
  }

  function Appended(ops: seq<RingOp>): seq<Entry> {
    if ops == [] then []
    else (if ops[0].DoAppend? then [ops[0].e] else []) + Appended(ops[1..])
  }

  lemma ApplyKeeps(w: Window, op: RingOp)
    requires Consistent(w)
    ensures Consistent(Apply(w, op))
  {
    match op {
      case DoAppend(e) => AppendKeeps(w, e);
      case DoEvict => EvictKeeps(w);
      case SetBudget(_) =>
    }
  }

  lemma Regroup(a: seq<Entry>, b: seq<Entry>, c: seq<Entry>)
    ensures (a + b) + c == a + (b + c)
  {
  }

  lemma {:induction false} RunKeeps(w: Window, ops: seq<RingOp>)
    requires Consistent(w)
    ensures Consistent(Run(w, ops))
    ensures Run(w, ops).history == w.history + Appended(ops)
    decreases |ops|
  {
    if ops != [] {
      ApplyKeeps(w, ops[0]);
      RunKeeps(Apply(w, ops[0]), ops[1..]);
      var newly := if ops[0].DoAppend? then [ops[0].e] else [];
      assert Apply(w, ops[0]).history == w.history + newly;
      Regroup(w.history, newly, Appended(ops[1..]));
    }
  }

  /** Replay completeness over every run of a ring that starts empty, with its exact exception. */
  lemma RunReplayComplete(maxBytes: int, ops: seq<RingOp>, lastSeq: uint64)
    requires Ascending(Appended(ops)) && Positive(Appended(ops)) && lastSeq > 0
    ensures var w := Run(NewWindow(maxBytes), ops);
            !(w.contents == [] && w.latest == MAX_UINT64 && lastSeq < w.latest) <==>
            (Replay(w, lastSeq).ok ==> Replay(w, lastSeq).entries == After(Appended(ops), lastSeq))
  {
    RunKeeps(NewWindow(maxBytes), ops);
    assert [] + Appended(ops) == Appended(ops);
    ReplayComplete(Run(NewWindow(maxBytes), ops), lastSeq);
  }
}
