/**
 History handover inside one session, as a state machine over the individual steps of
 `Publish`, `Broadcast`, `AttachWithReplay` and `Detach`. `publishMu` is the `phase`: a step that
 takes the lock needs it `Unlocked`, and every later step of the same call names the phase it
 continues. `Detach` and the cache policy do not take that lock and may run at any moment.
 */
module Handover {
  import opened Base
  import opened Ring

  /** What is passed to a client's `Send`: an entry's payload, a control frame, or the notice
      that the requested history is gone. */
  datatype Frame =
    | Data(entry: Entry)
    | Control(raw: seq<byte>)
    | Unavailable(earliest: uint64, latest: uint64)

  type ClientId = string

  datatype Phase =
    | Unlocked
    | Appended(entry: Entry)                              // in Publish, ring written, clients not yet listed
    | Sending(frame: Frame, todo: seq<ClientId>)          // in the fan-out loop of Publish or Broadcast
    | Replaying(client: ClientId, rest: seq<Frame>)       // in AttachWithReplay, before Attach

  /** The ring as it was when the client's latest AttachWithReplay read it. */
  datatype Attachment = Attachment(at: Window, lastSeq: uint64)

  datatype State = State(
    ring: Window,
    attached: set<ClientId>,
    phase: Phase,
    log: map<ClientId, seq<Frame>>,             // Send calls since the client's latest attach began
    attachments: map<ClientId, Attachment>)

  datatype Step =
    | PublishAppend(e: Entry)
    | ListClients(order: seq<ClientId>)
    | BroadcastStart(raw: seq<byte>, order: seq<ClientId>)
    | SendNext
    | SendDone
    | AttachReplay(client: ClientId, lastSeq: uint64)
    | ReplayNext
    | AttachDone
    | Detach(client: ClientId)
    | Rebudget(maxBytes: int)
    | EvictNow

  function Datas(es: seq<Entry>): (fs: seq<Frame>)
    ensures |fs| == |es| && forall i :: 0 <= i < |es| ==> fs[i] == Data(es[i])
  {
    seq(|es|, i requires 0 <= i < |es| => Data(es[i]))
  }

  function Backlog(a: Attachment): seq<Frame> {
    var r := Replay(a.at, a.lastSeq);
    if r.ok then Datas(r.entries) else [Unavailable(r.earliest, r.latest)]
  }

  ghost predicate Enabled(s: State, step: Step) {
    match step
    case PublishAppend(_) => s.phase.Unlocked?
    case ListClients(order) => s.phase.Appended? && Enumerates(order, s.attached)
    case BroadcastStart(_, order) => s.phase.Unlocked? && Enumerates(order, s.attached)
    case SendNext => s.phase.Sending? && s.phase.todo != []
    case SendDone => s.phase.Sending? && s.phase.todo == []
    case AttachReplay(_, _) => s.phase.Unlocked?
    case ReplayNext => s.phase.Replaying? && s.phase.rest != []
    case AttachDone => s.phase.Replaying? && s.phase.rest == []
    case Detach(_) => true
    case Rebudget(_) => true
    case EvictNow => true
  }

  function Send(s: State, c: ClientId, f: Frame): State {
    s.(log := s.log[c := (if c in s.log then s.log[c] else []) + [f]])
  }

  function Do(s: State, step: Step): State {
    match step
    case PublishAppend(e) => s.(ring := Append(s.ring, e), phase := Appended(e))
    case ListClients(order) => if s.phase.Appended? then s.(phase := Sending(Data(s.phase.entry), order)) else s
    case BroadcastStart(raw, order) => s.(phase := Sending(Control(raw), order))
    case SendNext =>
      if s.phase.Sending? && s.phase.todo != []
      then Send(s, s.phase.todo[0], s.phase.frame).(phase := s.phase.(todo := s.phase.todo[1..]))
      else s
    case SendDone => s.(phase := Unlocked)
    case AttachReplay(c, lastSeq) =>
      var a := Attachment(s.ring, lastSeq);
      s.(phase := Replaying(c, Backlog(a)), log := s.log[c := []], attachments := s.attachments[c := a])
    case ReplayNext =>
      if s.phase.Replaying? && s.phase.rest != []
      then Send(s, s.phase.client, s.phase.rest[0]).(phase := s.phase.(rest := s.phase.rest[1..]))
      else s
    case AttachDone =>
      if s.phase.Replaying? then s.(attached := s.attached + {s.phase.client}, phase := Unlocked) else s
    case Detach(c) => s.(attached := s.attached - {c})
    case Rebudget(m) => s.(ring := s.ring.(maxBytes := m))
    case EvictNow => s.(ring := Evict(s.ring))
  }

  function Init(maxBytes: int): State {
    State(NewWindow(maxBytes), {}, Unlocked, map[], map[])
  }

  ghost predicate ValidRun(s: State, steps: seq<Step>)
    decreases |steps|
  {
    steps == [] || (Enabled(s, steps[0]) && ValidRun(Do(s, steps[0]), steps[1..]))
  }

  function Run(s: State, steps: seq<Step>): State
    decreases |steps|
  {
    if steps == [] then s else Run(Do(s, steps[0]), steps[1..])
  }

  // ---------------------------------------------------------------------------------------------
  // The invariant
  // ---------------------------------------------------------------------------------------------

  /** Everything but control frames, which carry no sequence number and are not history. */
  function History(fs: seq<Frame>): seq<Frame> {
    if fs == [] then []
    else History(fs[..|fs| - 1]) + if fs[|fs| - 1].Control? then [] else [fs[|fs| - 1]]
  }

  /** The published entry that the call in progress still owes to client `c`. */
  function InFlight(s: State, c: ClientId): seq<Frame> {
    match s.phase
    case Appended(e) => [Data(e)]
    case Sending(f, todo) => if f.Data? && c in todo then [f] else []
    case _ => []
  }

  /** What `c` must have been sent: its backlog, then every entry published since. */
  function Owed(s: State, c: ClientId): seq<Frame>
    requires c in s.attachments && |s.attachments[c].at.history| <= |s.ring.history|
  {
    Backlog(s.attachments[c]) + Datas(s.ring.history[|s.attachments[c].at.history|..])
  }

  ghost predicate Known(s: State, c: ClientId) {
    && c in s.log && c in s.attachments
    && Consistent(s.attachments[c].at)
    && IsPrefix(s.attachments[c].at.history, s.ring.history)
  }

  ghost predicate BusyWith(s: State, c: ClientId) {
    s.phase.Replaying? && s.phase.client == c
  }

  ghost predicate Delivered(s: State, c: ClientId) {
    Known(s, c) && History(s.log[c]) + InFlight(s, c) == Owed(s, c)
  }

  /** A fan-out lists each client once and passes an entry or a control frame. */
  ghost predicate Orderly(s: State) {
    s.phase.Sending? ==>
      && (forall i, j :: 0 <= i < j < |s.phase.todo| ==> s.phase.todo[i] != s.phase.todo[j])
      && !s.phase.frame.Unavailable?
  }

  ghost predicate Inv(s: State) {
    && Consistent(s.ring)
    && (forall c :: c in s.attached && !BusyWith(s, c) ==> Delivered(s, c))
    && Orderly(s)
    && (s.phase.Replaying? ==>
         && Known(s, s.phase.client)
         && s.attachments[s.phase.client].at.history == s.ring.history
         && s.log[s.phase.client] + s.phase.rest == Backlog(s.attachments[s.phase.client]))
  }

  lemma HistorySnoc(fs: seq<Frame>, f: Frame)
    ensures History(fs + [f]) == History(fs) + if f.Control? then [] else [f]
  {
    assert (fs + [f])[..|fs|] == fs;
  }

  lemma {:induction false} HistoryOfBacklog(fs: seq<Frame>)
    requires forall f :: f in fs ==> !f.Control?
    ensures History(fs) == fs
  {
    if fs != [] {
      HistoryOfBacklog(fs[..|fs| - 1]);
      assert fs == fs[..|fs| - 1] + [fs[|fs| - 1]];
    }
  }

  /** A step that touches neither the published history nor what any client was sent. */
  lemma QuietStepKeeps(s: State, s': State)
    requires Inv(s) && Consistent(s'.ring) && s'.ring.history == s.ring.history
    requires s'.attached <= s.attached && s'.phase == s.phase && s'.log == s.log && s'.attachments == s.attachments
    ensures Inv(s')
  {
    forall c | c in s'.attached && !BusyWith(s', c) ensures Delivered(s', c) {
      assert Delivered(s, c);
    }
  }

  lemma RingStepKeeps(s: State, step: Step)
    requires Inv(s) && (step.Rebudget? || step.EvictNow? || step.Detach?)
    ensures Inv(Do(s, step))
  {
    if step.EvictNow? { EvictKeeps(s.ring); }
    QuietStepKeeps(s, Do(s, step));
  }

  lemma BaseGrows(base: seq<Entry>, before: seq<Entry>, e: Entry)
    requires IsPrefix(base, before)
    ensures IsPrefix(base, before + [e])
    ensures Datas((before + [e])[|base|..]) == Datas(before[|base|..]) + [Data(e)]
  {
    assert (before + [e])[|base|..] == before[|base|..] + [e];
    assert (before + [e])[..|base|] == before[..|base|];
  }

  lemma PublishAppendKeeps(s: State, e: Entry)
    requires Inv(s) && s.phase.Unlocked?
    ensures Inv(Do(s, PublishAppend(e)))
  {
    var s' := Do(s, PublishAppend(e));
    assert Consistent(s'.ring) by { AppendKeeps(s.ring, e); }
    assert s'.ring.history == s.ring.history + [e];
    forall c | c in s'.attached ensures Delivered(s', c) {
      PublishDelivers(s, e, c);
    }
  }

  lemma PublishDelivers(s: State, e: Entry, c: ClientId)
    requires Delivered(s, c) && s.phase.Unlocked?
    ensures Delivered(Do(s, PublishAppend(e)), c)
  {
    BaseGrows(s.attachments[c].at.history, s.ring.history, e);
    var s' := Do(s, PublishAppend(e));
    assert Owed(s', c) == Owed(s, c) + [Data(e)];
    assert InFlight(s, c) == [];
  }

  lemma FanOutStartKeeps(s: State, step: Step)
    requires Inv(s) && Enabled(s, step) && (step.ListClients? || step.BroadcastStart?)
    ensures Inv(Do(s, step))
  {
    var s' := Do(s, step);
    forall c | c in s'.attached ensures Delivered(s', c) {
      assert Delivered(s, c);
      assert c in s'.phase.todo;
    }
  }

  lemma SentIsHistory(sent: seq<Frame>, f: Frame)
    requires !f.Unavailable?
    ensures History(sent + [f]) + [] == History(sent) + if f.Data? then [f] else []
  {
    HistorySnoc(sent, f);
  }

  lemma SendKeepsAccount(s: State, c: ClientId)
    requires Orderly(s) && Enabled(s, SendNext) && c in s.log
    ensures var s' := Do(s, SendNext);
            c in s'.log && History(s'.log[c]) + InFlight(s', c) == History(s.log[c]) + InFlight(s, c)
  {
    var f, first, rest := s.phase.frame, s.phase.todo[0], s.phase.todo[1..];
    assert s.phase.todo == [first] + rest;
    if c == first {
      assert c !in rest;
      assert Do(s, SendNext).log[c] == s.log[c] + [f];
      SentIsHistory(s.log[c], f);
    } else {
      assert c in s.phase.todo <==> c in rest;
    }
  }

  lemma SendNextKeeps(s: State)
    requires Inv(s) && Enabled(s, SendNext)
    ensures Inv(Do(s, SendNext))
  {
    var s' := Do(s, SendNext);
    forall c | c in s'.attached && !BusyWith(s', c) ensures Delivered(s', c) {
      assert Delivered(s, c);
      SendKeepsAccount(s, c);
    }
  }

  lemma SendDoneKeeps(s: State)
    requires Inv(s) && Enabled(s, SendDone)
    ensures Inv(Do(s, SendDone))
  {
    var s' := Do(s, SendDone);
    forall c | c in s'.attached ensures Delivered(s', c) {
      assert Delivered(s, c);
    }
  }

  lemma AttachReplayKeeps(s: State, client: ClientId, lastSeq: uint64)
    requires Inv(s) && s.phase.Unlocked?
    ensures Inv(Do(s, AttachReplay(client, lastSeq)))
  {
    var s' := Do(s, AttachReplay(client, lastSeq));
    forall c | c in s'.attached && !BusyWith(s', c) ensures Delivered(s', c) {
      assert Delivered(s, c);
    }
    assert [] + Backlog(s'.attachments[client]) == Backlog(s'.attachments[client]);
  }

  lemma ReplayNextKeeps(s: State)
    requires Inv(s) && Enabled(s, ReplayNext)
    ensures Inv(Do(s, ReplayNext))
  {
    var s' := Do(s, ReplayNext);
    var client := s.phase.client;
    forall c | c in s'.attached && !BusyWith(s', c) ensures Delivered(s', c) {
      assert Delivered(s, c);
    }
    assert s.log[client] + s.phase.rest == s'.log[client] + s'.phase.rest;
  }

  lemma AttachDoneKeeps(s: State)
    requires Inv(s) && Enabled(s, AttachDone)
    ensures Inv(Do(s, AttachDone))
  {
    var s' := Do(s, AttachDone);
    var client := s.phase.client;
    forall c | c in s'.attached ensures Delivered(s', c) {
      if c == client {
        assert s.log[c] == Backlog(s.attachments[c]);
        HistoryOfBacklog(s.log[c]);
      } else {
        assert Delivered(s, c);
      }
    }
  }

  lemma StepKeeps(s: State, step: Step)
    requires Inv(s) && Enabled(s, step)
    ensures Inv(Do(s, step))
  {
    match step {
      case PublishAppend(e) => PublishAppendKeeps(s, e);
      case ListClients(_) => FanOutStartKeeps(s, step);
      case BroadcastStart(_, _) => FanOutStartKeeps(s, step);
      case SendNext => SendNextKeeps(s);
      case SendDone => SendDoneKeeps(s);
      case AttachReplay(c, lastSeq) => AttachReplayKeeps(s, c, lastSeq);
      case ReplayNext => ReplayNextKeeps(s);
      case AttachDone => AttachDoneKeeps(s);
      case Detach(_) => RingStepKeeps(s, step);
      case Rebudget(_) => RingStepKeeps(s, step);
      case EvictNow => RingStepKeeps(s, step);
    }
  }

  lemma {:induction false} RunKeeps(s: State, steps: seq<Step>)
    requires Inv(s) && ValidRun(s, steps)
    ensures Inv(Run(s, steps))
    decreases |steps|
  {
    if steps != [] {
      StepKeeps(s, steps[0]);
      RunKeeps(Do(s, steps[0]), steps[1..]);
    }
  }

  // ---------------------------------------------------------------------------------------------
  // What a client receives
  // ---------------------------------------------------------------------------------------------

  /** Every interleaving: the history frames sent to an attached client, followed by the one the
      call in progress still owes it, are its backlog and then everything published since. */
  lemma HandoverIsExact(maxBytes: int, steps: seq<Step>, c: ClientId)
    requires ValidRun(Init(maxBytes), steps)
    requires c in Run(Init(maxBytes), steps).attached && !BusyWith(Run(Init(maxBytes), steps), c)
    ensures Delivered(Run(Init(maxBytes), steps), c)
  {
    RunKeeps(Init(maxBytes), steps);
  }

  /** Attached with `0 < lastSeq <= LatestSeq` still available: at every moment, what was sent and
      what the call in progress still owes is the published history beyond `lastSeq`, in order,
      without gap or duplicate. The only exception is an emptied ring at the last uint64. */
  lemma ResumedClientGetsHistory(maxBytes: int, steps: seq<Step>, c: ClientId)
    requires ValidRun(Init(maxBytes), steps)
    requires var s := Run(Init(maxBytes), steps);
      && c in s.attached && !BusyWith(s, c) && Ascending(s.ring.history) && Positive(s.ring.history)
    ensures var s := Run(Init(maxBytes), steps);
      c in s.attachments && c in s.log &&
      var a := s.attachments[c];
      (0 < a.lastSeq <= a.at.latest && Replay(a.at, a.lastSeq).ok ==>
        (History(s.log[c]) + InFlight(s, c) == Datas(After(s.ring.history, a.lastSeq)) <==>
         !(a.at.contents == [] && a.at.latest == MAX_UINT64 && a.lastSeq < a.at.latest)))
  {
    HandoverIsExact(maxBytes, steps, c);
    var s := Run(Init(maxBytes), steps);
    var a := s.attachments[c];
    if 0 < a.lastSeq <= a.at.latest && Replay(a.at, a.lastSeq).ok {
      BacklogAndSince(a, s.ring.history);
    }
  }

  lemma BacklogAndSince(a: Attachment, all: seq<Entry>)
    requires Consistent(a.at) && IsPrefix(a.at.history, all) && Ascending(all) && Positive(all)
    requires 0 < a.lastSeq <= a.at.latest && Replay(a.at, a.lastSeq).ok
    ensures Backlog(a) + Datas(all[|a.at.history|..]) == Datas(After(all, a.lastSeq)) <==>
            !(a.at.contents == [] && a.at.latest == MAX_UINT64 && a.lastSeq < a.at.latest)
  {
    PrefixOfHistory(a.at, all, a.lastSeq);
    ReplayComplete(a.at, a.lastSeq);
    if a.at.contents == [] && a.at.latest == MAX_UINT64 && a.lastSeq < a.at.latest {
      AfterMember(a.at.history, a.lastSeq, a.at.history[|a.at.history| - 1]);
      assert Backlog(a) == [];
      assert |Datas(After(all, a.lastSeq))| > |Datas(all[|a.at.history|..])|;
    }
  }

  lemma PrefixAscending(at: Window, all: seq<Entry>)
    requires Consistent(at) && IsPrefix(at.history, all)
    requires Ascending(all) && Positive(all)
    ensures Ascending(at.history) && Positive(at.history)
    ensures at.history != [] ==> at.latest == all[|at.history| - 1].seqNo
  {
    assert forall i :: 0 <= i < |at.history| ==> at.history[i] == all[i];
  }

  lemma AfterBeyondPrefix(n: nat, all: seq<Entry>, lastSeq: uint64)
    requires n <= |all| && forall i :: n <= i < |all| ==> all[i].seqNo > lastSeq
    ensures After(all, lastSeq) == After(all[..n], lastSeq) + all[n..]
  {
    assert all == all[..n] + all[n..];
    AfterConcat(all[..n], all[n..], lastSeq);
    AfterAll(all[n..], lastSeq);
  }

  lemma PrefixOfHistory(at: Window, all: seq<Entry>, lastSeq: uint64)
    requires Consistent(at) && IsPrefix(at.history, all)
    requires Ascending(all) && Positive(all) && 0 < lastSeq <= at.latest
    ensures Ascending(at.history) && Positive(at.history)
    ensures Datas(After(all, lastSeq)) == Datas(After(at.history, lastSeq)) + Datas(all[|at.history|..])
  {
    PrefixAscending(at, all);
    AfterBeyondPrefix(|at.history|, all, lastSeq);
  }

  /** Attached with `lastSeq == 0`: the ring as it was, then everything published since.
      Attached to evicted history: one notice, then everything published since. */
  lemma FreshOrLateClientGetsTheRest(maxBytes: int, steps: seq<Step>, c: ClientId)
    requires ValidRun(Init(maxBytes), steps)
    requires c in Run(Init(maxBytes), steps).attached && Run(Init(maxBytes), steps).phase.Unlocked?
    ensures var s := Run(Init(maxBytes), steps);
      Known(s, c) &&
      var a := s.attachments[c];
      var since := Datas(s.ring.history[|a.at.history|..]);
      && (a.lastSeq == 0 ==> History(s.log[c]) == Datas(a.at.contents) + since)
      && (!Replay(a.at, a.lastSeq).ok ==>
           History(s.log[c]) == [Unavailable(a.at.earliest, a.at.latest)] + since)
  {
    HandoverIsExact(maxBytes, steps, c);
    var s := Run(Init(maxBytes), steps);
    assert History(s.log[c]) + [] == History(s.log[c]);
  }

  /** What a client must have been sent if its latest attach read the ring as `w`, and `since` has
      been published from then on. */
  ghost predicate Served(got: seq<Frame>, w: Window, lastSeq: uint64, since: seq<Frame>) {
    if lastSeq == 0 then got == Datas(w.contents) + since
    else if Answered(w, lastSeq) then got == Datas(After(w.history, lastSeq)) + since
    else
      && w.history != []
      && var newest := w.history[|w.history| - 1].seqNo;
      got == [Unavailable(if w.contents != [] then w.contents[0].seqNo else newest + 1, newest)] + since
  }

  lemma BacklogServes(a: Attachment, since: seq<Frame>)
    requires Consistent(a.at) && Ascending(a.at.history) && Positive(a.at.history) && a.at.latest != MAX_UINT64
    ensures Served(Backlog(a) + since, a.at, a.lastSeq, since)
  {
    ReplayAnsweredExactly(a.at, a.lastSeq);
    if a.lastSeq > 0 {
      ReplayComplete(a.at, a.lastSeq);
    }
  }

  /**
   Which of the three every attached client gets, decided by the entries alone: the ring, or all
   history beyond its number, or a notice with the true window; and then everything published since.
   */
  lemma AttachedClientIsServed(maxBytes: int, steps: seq<Step>, c: ClientId)
    requires ValidRun(Init(maxBytes), steps)
    requires var s := Run(Init(maxBytes), steps);
      && c in s.attached && !BusyWith(s, c) && Ascending(s.ring.history) && Positive(s.ring.history)
      && forall e :: e in s.ring.history ==> e.seqNo != MAX_UINT64
    ensures var s := Run(Init(maxBytes), steps);
      Known(s, c) &&
      var a := s.attachments[c];
      Served(History(s.log[c]) + InFlight(s, c), a.at, a.lastSeq, Datas(s.ring.history[|a.at.history|..]))
  {
    HandoverIsExact(maxBytes, steps, c);
    var s := Run(Init(maxBytes), steps);
    var a := s.attachments[c];
    PrefixAscending(a.at, s.ring.history);
    if a.at.history != [] {
      assert a.at.latest == s.ring.history[|a.at.history| - 1].seqNo;
    }
    BacklogServes(a, Datas(s.ring.history[|a.at.history|..]));
  }

  // ---------------------------------------------------------------------------------------------
  // Coming and going
  // ---------------------------------------------------------------------------------------------

  /** Nothing under way will send to `c`. */
  ghost predicate Away(s: State, c: ClientId) {
    && c !in s.attached && !BusyWith(s, c)
    && (s.phase.Sending? ==> c !in s.phase.todo)
  }

  lemma StepLeavesAway(s: State, step: Step, c: ClientId)
    requires Away(s, c) && Enabled(s, step) && !(step.AttachReplay? && step.client == c)
    ensures var t := Do(s, step);
            && Away(t, c) && (c in t.log <==> c in s.log) && (c in s.log ==> t.log[c] == s.log[c])
  {
    if step.SendNext? {
      var todo := s.phase.todo;
      assert todo[0] in todo && forall x :: x in todo[1..] ==> x in todo;
    }
  }

  /** A client that has left, or never came, is sent nothing until it attaches, whatever happens. */
  lemma {:induction false} AwayIsSentNothing(s: State, steps: seq<Step>, c: ClientId)
    requires Away(s, c) && ValidRun(s, steps)
    requires forall i :: 0 <= i < |steps| ==> !(steps[i].AttachReplay? && steps[i].client == c)
    ensures var t := Run(s, steps);
            && Away(t, c) && (c in t.log <==> c in s.log) && (c in s.log ==> t.log[c] == s.log[c])
    decreases |steps|
  {
    if steps != [] {
      StepLeavesAway(s, steps[0], c);
      AwayIsSentNothing(Do(s, steps[0]), steps[1..], c);
    }
  }

  function ReplaySteps(n: nat): seq<Step> {
    if n == 0 then [AttachDone] else [ReplayNext] + ReplaySteps(n - 1)
  }

  lemma {:induction false} ReplayRun(s: State)
    requires s.phase.Replaying? && s.phase.client in s.log
    ensures ValidRun(s, ReplaySteps(|s.phase.rest|))
    ensures var c := s.phase.client;
            Run(s, ReplaySteps(|s.phase.rest|)) ==
            s.(phase := Unlocked, attached := s.attached + {c}, log := s.log[c := s.log[c] + s.phase.rest])
    decreases |s.phase.rest|
  {
    var steps, c := ReplaySteps(|s.phase.rest|), s.phase.client;
    if s.phase.rest == [] {
      assert steps[1..] == [];
      assert s.log[c] + [] == s.log[c] && s.log[c := s.log[c]] == s.log;
    } else {
      assert steps[1..] == ReplaySteps(|s.phase.rest| - 1);
      var t := Do(s, ReplayNext);
      ReplayRun(t);
      assert t.log[c] + t.phase.rest == s.log[c] + s.phase.rest;
      assert t.log[c := s.log[c] + s.phase.rest] == s.log[c := s.log[c] + s.phase.rest];
    }
  }

  /** An attach run to its end sends the backlog and attaches the client; a detach then takes it out. */
  lemma AttachUninterrupted(s: State, c: ClientId, lastSeq: uint64)
    requires s.phase.Unlocked?
    ensures var steps := [AttachReplay(c, lastSeq)] + ReplaySteps(|Backlog(Attachment(s.ring, lastSeq))|);
            var t := Run(s, steps);
            && ValidRun(s, steps) && t.phase.Unlocked? && t.ring == s.ring
            && t.attached == s.attached + {c} && c in t.log && t.log[c] == Backlog(Attachment(s.ring, lastSeq))
            && (forall d :: d in s.log && d != c ==> d in t.log && t.log[d] == s.log[d])
            && Do(t, Detach(c)).attached == s.attached - {c} && Away(Do(t, Detach(c)), c)
  {
    var s1 := Do(s, AttachReplay(c, lastSeq));
    ReplayRun(s1);
    RunCons(s, AttachReplay(c, lastSeq), ReplaySteps(|Backlog(Attachment(s.ring, lastSeq))|));
    assert [] + s1.phase.rest == s1.phase.rest;
    assert s.attached + {c} - {c} == s.attached - {c};
  }

  // ---------------------------------------------------------------------------------------------
  // Why the lock is needed
  // ---------------------------------------------------------------------------------------------

  /** Client `c`, attached as `a` says, is sent its backlog and then what is published after `base`. */
  ghost predicate ServedFrom(s: State, c: ClientId, a: Attachment, base: seq<Entry>) {
    && c in s.log && c in s.attachments && s.attachments[c] == a && c in s.attached && !BusyWith(s, c) && Orderly(s)
    && IsPrefix(base, s.ring.history)
    && History(s.log[c]) + InFlight(s, c) == Backlog(a) + Datas(s.ring.history[|base|..])
  }

  ghost predicate Undisturbed(step: Step, c: ClientId) {
    !(step.AttachReplay? && step.client == c) && !(step.Detach? && step.client == c)
  }

  lemma AppendServes(s: State, e: Entry, c: ClientId, a: Attachment, base: seq<Entry>)
    requires ServedFrom(s, c, a, base) && s.phase.Unlocked?
    ensures ServedFrom(Do(s, PublishAppend(e)), c, a, base)
  {
    var s' := Do(s, PublishAppend(e));
    assert s'.ring.history == s.ring.history + [e];
    BaseGrows(base, s.ring.history, e);
    var sent, backlog, since := History(s.log[c]), Backlog(a), Datas(s.ring.history[|base|..]);
    assert InFlight(s, c) == [] && sent + [] == sent;
    assert InFlight(s', c) == [Data(e)];
    assert backlog + (since + [Data(e)]) == (backlog + since) + [Data(e)];
  }

  lemma SendServes(s: State, c: ClientId, a: Attachment, base: seq<Entry>)
    requires ServedFrom(s, c, a, base) && Enabled(s, SendNext)
    ensures ServedFrom(Do(s, SendNext), c, a, base)
  {
    SendKeepsAccount(s, c);
  }

  lemma FanOutServes(s: State, step: Step, c: ClientId, a: Attachment, base: seq<Entry>)
    requires ServedFrom(s, c, a, base) && Enabled(s, step) && (step.ListClients? || step.BroadcastStart?)
    ensures ServedFrom(Do(s, step), c, a, base)
  {
    assert c in Do(s, step).phase.todo;
  }

  lemma StepServes(s: State, step: Step, c: ClientId, a: Attachment, base: seq<Entry>)
    requires ServedFrom(s, c, a, base) && Enabled(s, step) && Undisturbed(step, c)
    ensures ServedFrom(Do(s, step), c, a, base)
  {
    match step {
      case PublishAppend(e) => AppendServes(s, e, c, a, base);
      case ListClients(_) => FanOutServes(s, step, c, a, base);
      case BroadcastStart(_, _) => FanOutServes(s, step, c, a, base);
      case SendNext => SendServes(s, c, a, base);
      case _ => assert Do(s, step).ring.history == s.ring.history;
    }
  }

  lemma {:induction false} RunServes(s: State, steps: seq<Step>, c: ClientId, a: Attachment, base: seq<Entry>)
    requires ServedFrom(s, c, a, base) && ValidRun(s, steps)
    requires forall i :: 0 <= i < |steps| ==> Undisturbed(steps[i], c)
    ensures ServedFrom(Run(s, steps), c, a, base)
    decreases |steps|
  {
    if steps != [] {
      StepServes(s, steps[0], c, a, base);
      RunServes(Do(s, steps[0]), steps[1..], c, a, base);
    }
  }

  /** An entry published between the replay and the attach of one AttachWithReplay, without the lock. */
  function Interrupted(s: State, e: Entry): State {
    Do(s.(ring := Append(s.ring, e)), AttachDone)
  }

  lemma InterruptedFields(s: State, e: Entry, c: ClientId)
    requires s.phase == Replaying(c, [])
    ensures var u := Interrupted(s, e);
            && u.ring.history == s.ring.history + [e] && u.phase == Unlocked && c in u.attached
            && u.log == s.log && u.attachments == s.attachments
  {
  }

  lemma InterruptedServes(s: State, e: Entry, c: ClientId)
    requires Inv(s) && s.phase == Replaying(c, [])
    ensures c in s.attachments && ServedFrom(Interrupted(s, e), c, s.attachments[c], s.ring.history + [e])
  {
    InterruptedFields(s, e, c);
    var sent := s.log[c];
    assert sent + [] == sent;
    HistoryOfBacklog(sent);
    var h := s.ring.history + [e];
    assert h[|h|..] == [] && Datas([]) == [] && h[..|h|] == h;
    assert sent + [] == sent;
  }

  lemma MissingEntry(before: seq<Entry>, e: Entry, h: seq<Entry>)
    requires IsPrefix(before + [e], h)
    ensures |before| < |h|
    ensures Datas(h[|before|..]) == [Data(e)] + Datas(h[|before| + 1..])
  {
    assert h[|before|] == (before + [e])[|before|];
    assert h[|before|..] == [e] + h[|before| + 1..];
  }

  lemma ServedPastEntry(t: State, c: ClientId, a: Attachment, before: seq<Entry>, e: Entry)
    requires ServedFrom(t, c, a, before + [e]) && a.at.history == before
    ensures |before| < |t.ring.history|
    ensures var since := Datas(t.ring.history[|before| + 1..]);
            && History(t.log[c]) + InFlight(t, c) == Backlog(a) + since
            && Owed(t, c) == Backlog(a) + ([Data(e)] + since)
  {
    MissingEntry(before, e, t.ring.history);
  }

  /**
   The lock forbids it: such a publication is not enabled. If it did happen, the client would miss
   that entry for good. Whatever is published, broadcast, evicted or attached afterwards, as long as
   the client stays attached it is sent its backlog and everything from the next entry on.
   */
  lemma GapWithoutPublishMu(s: State, e: Entry, c: ClientId, steps: seq<Step>)
    requires Inv(s) && s.phase == Replaying(c, []) && ValidRun(Interrupted(s, e), steps)
    requires forall i :: 0 <= i < |steps| ==> Undisturbed(steps[i], c)
    ensures !Enabled(s, PublishAppend(e))
    ensures var t := Run(Interrupted(s, e), steps);
            && c in t.log && c in t.attachments && |t.attachments[c].at.history| < |t.ring.history|
            && var since := Datas(t.ring.history[|t.attachments[c].at.history| + 1..]);
            && History(t.log[c]) + InFlight(t, c) == Backlog(t.attachments[c]) + since
            && Owed(t, c) == Backlog(t.attachments[c]) + ([Data(e)] + since)
  {
    InterruptedServes(s, e, c);
    RunServes(Interrupted(s, e), steps, c, s.attachments[c], s.ring.history + [e]);
    ServedPastEntry(Run(Interrupted(s, e), steps), c, s.attachments[c], s.ring.history, e);
  }

  // ---------------------------------------------------------------------------------------------
  // One call without interruption
  // ---------------------------------------------------------------------------------------------

  function FanOut(n: nat): seq<Step> {
    if n == 0 then [SendDone] else [SendNext] + FanOut(n - 1)
  }

  function SentTo(log: map<ClientId, seq<Frame>>, order: seq<ClientId>, f: Frame): map<ClientId, seq<Frame>>
    decreases |order|
  {
    if order == [] then log
    else SentTo(log[order[0] := (if order[0] in log then log[order[0]] else []) + [f]], order[1..], f)
  }

  lemma {:induction false} FanOutRun(s: State)
    requires s.phase.Sending?
    ensures ValidRun(s, FanOut(|s.phase.todo|))
    ensures Run(s, FanOut(|s.phase.todo|)) ==
            s.(phase := Unlocked, log := SentTo(s.log, s.phase.todo, s.phase.frame))
    decreases |s.phase.todo|
  {
    var steps := FanOut(|s.phase.todo|);
    if s.phase.todo == [] {
      assert steps[1..] == [];
    } else {
      assert steps[1..] == FanOut(|s.phase.todo| - 1);
      FanOutRun(Do(s, SendNext));
    }
  }

  lemma {:induction false} SentToOnce(log: map<ClientId, seq<Frame>>, order: seq<ClientId>, f: Frame, c: ClientId)
    requires forall i, j :: 0 <= i < j < |order| ==> order[i] != order[j]
    requires c in log
    ensures c in SentTo(log, order, f)
    ensures SentTo(log, order, f)[c] == if c in order then log[c] + [f] else log[c]
    decreases |order|
  {
    if order != [] {
      SentToOnce(log[order[0] := (if order[0] in log then log[order[0]] else []) + [f]], order[1..], f, c);
    }
  }

  /** Publish run to its end appends to the ring and sends the entry once to each attached client. */
  lemma PublishUninterrupted(s: State, e: Entry, order: seq<ClientId>)
    requires s.phase.Unlocked? && Enumerates(order, s.attached)
    requires forall c :: c in s.attached ==> c in s.log
    ensures var steps := [PublishAppend(e), ListClients(order)] + FanOut(|order|);
            && ValidRun(s, steps)
            && Run(s, steps) == s.(ring := Append(s.ring, e), log := SentTo(s.log, order, Data(e)))
    ensures forall c :: c in s.attached ==>
              c in SentTo(s.log, order, Data(e)) && SentTo(s.log, order, Data(e))[c] == s.log[c] + [Data(e)]
  {
    var fan := FanOut(|order|);
    var s1 := Do(s, PublishAppend(e));
    var s2 := Do(s1, ListClients(order));
    FanOutRun(s2);
    RunCons(s1, ListClients(order), fan);
    RunCons(s, PublishAppend(e), [ListClients(order)] + fan);
    assert [PublishAppend(e), ListClients(order)] + fan == [PublishAppend(e)] + ([ListClients(order)] + fan);
    forall c | c in s.attached
      ensures c in SentTo(s.log, order, Data(e)) && SentTo(s.log, order, Data(e))[c] == s.log[c] + [Data(e)]
    {
      SentToOnce(s.log, order, Data(e), c);
    }
  }

  lemma RunCons(s: State, step: Step, steps: seq<Step>)
    ensures Run(s, [step] + steps) == Run(Do(s, step), steps)
    ensures ValidRun(s, [step] + steps) <==> Enabled(s, step) && ValidRun(Do(s, step), steps)
  {
    assert ([step] + steps)[1..] == steps;
  }
}
