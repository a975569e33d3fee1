/**
 The daemon's multiplex as a value: one sequence counter and one sanitizer per session, and the
 frame each registry callback builds. Frames are those of `IngestSpec`, as the coordinator decodes them.
 */
module MuxSpec {
  import opened Base
  import opened IngestSpec
  import D = DaemonSpec
  import S = SanitizerSpec

  const INT64_END := 0x8000_0000_0000_0000

  /** What the frame builder writes around the fields the coordinator reads. */
  datatype Builder = Builder(
    event: (string, uint64, EventKind, int, seq<byte>) -> seq<byte>,
    pty: (string, uint64, seq<byte>, int) -> seq<byte>)

  /** An extension's event line that decodes; the kind may be empty or unknown. */
  datatype ExtEvent = ExtEvent(kind: string, ts: int, data: seq<byte>)

  datatype Mux = Mux(seqs: map<string, uint64>, sans: map<string, S.State>)

  function KnownKind(kind: string): Option<EventKind> {
    if kind == "agent_start" then Some(AgentStart)
    else if kind == "agent_end" then Some(AgentEnd)
    else if kind == "attention_dialog" then Some(AttentionDialog)
    else if kind == "compaction_start" then Some(CompactionStart)
    else if kind == "compaction_end" then Some(CompactionEnd)
    else if kind == "extension_error" then Some(ExtensionError)
    else if kind == "model_select" then Some(ModelSelect)
    else if kind == "queue_update" then Some(QueueUpdate)
    else if kind == "tool_failure" then Some(ToolFailure)
    else None
  }

  function Peek(v: Mux, id: string): uint64 {
    if id in v.seqs then v.seqs[id] else 0
  }

  /** Take the session's next number; an allocator is created on first use. */
  function Take(v: Mux, id: string): Mux {
    v.(seqs := v.seqs[id := Succ64(Peek(v, id))])
  }

  function Track(v: Mux, id: string): Mux {
    v.(seqs := v.seqs[id := Peek(v, id)])
  }

  function Untrack(v: Mux, id: string): Mux {
    v.(seqs := v.seqs - {id})
  }

  /** Go's conversion from uint64 to int. */
  function ToInt(n: uint64): int64 {
    if n < INT64_END then n else n - TWO_64
  }

  function EventFrame(id: string, n: uint64, kind: EventKind, ts: int, raw: seq<byte>): DaemonFrame {
    if n < INT64_END then SessionEvent(id, n, kind, ts, raw) else BadBody(false)
  }

  function EndedFrame(id: string, n: uint64): DaemonFrame {
    if n < INT64_END then SessionEnded(id, n) else BadBody(false)
  }

  function StateFrame(id: string, n: uint64, to: Status): DaemonFrame {
    if n < INT64_END then SessionStateChange(id, n, to) else BadBody(false)
  }

  function ResumeFrame(id: string, n: uint64): DaemonFrame {
    if n < INT64_END then SessionResume(id, n) else BadBody(false)
  }

  /** The event as the multiplex reads it: nothing when malformed, without kind or of unknown kind. */
  function KindOf(ev: Option<ExtEvent>): Option<EventKind> {
    if ev.None? || ev.value.kind == "" then None else KnownKind(ev.value.kind)
  }

  function OnEvent(v: Mux, b: Builder, id: string, ev: Option<ExtEvent>, now: int): (Mux, Option<DaemonFrame>) {
    match KindOf(ev)
    case None => (v, None)
    case Some(kind) =>
      var v' := Take(v, id);
      var ts := if ev.value.ts == 0 then now else ev.value.ts;
      (v', Some(EventFrame(id, Peek(v', id), kind, ts, b.event(id, Peek(v', id), kind, ts, ev.value.data))))
  }

  function OnStateChange(v: Mux, id: string, to: Status): (Mux, DaemonFrame) {
    (Take(v, id), StateFrame(id, Peek(Take(v, id), id), to))
  }

  /** The last number is taken and the allocator forgotten. */
  function OnEnded(v: Mux, id: string): (Mux, DaemonFrame) {
    (Untrack(v, id), EndedFrame(id, Peek(Take(v, id), id)))
  }

  function SanOf(v: Mux, id: string): S.State {
    if id in v.sans then v.sans[id] else S.Normal
  }

  function SendPty(v: Mux, b: Builder, id: string, raw: seq<byte>, now: int): (Mux, DaemonFrame) {
    var v' := Take(v, id).(sans := v.sans[id := S.After(SanOf(v, id), raw)]);
    var n := Peek(v', id);
    (v', SessionPty(id, ToInt(n), now, b.pty(id, n, S.Out(SanOf(v, id), raw), now)))
  }

  /** Announced on reconnect: every session not ended whose process is not known to be dead. */
  predicate Announced(reg: D.Reg, dead: set<int>, id: string) {
    id in D.LiveIds(reg) && !(reg.sessions[id].pid > 0 && reg.sessions[id].pid in dead)
  }

  /** `live` lists these sessions once each, with their last numbers. */
  ghost predicate Lists(live: seq<(string, uint64)>, v: Mux, reg: D.Reg, dead: set<int>) {
    && (forall i, j :: 0 <= i < j < |live| ==> live[i].0 != live[j].0)
    && (forall id, n :: (id, n) in live <==> Announced(reg, dead, id) && n == Peek(v, id))
  }

  // ---------------------------------------------------------------------------------------------
  // Numbering over runs of callbacks
  // ---------------------------------------------------------------------------------------------

  datatype Callback =
    | Register(id: string, machineID: string)
    | Event(id: string, ev: Option<ExtEvent>, now: int)
    | Pty(id: string, raw: seq<byte>, now: int)
    | StateChange(id: string, to: Status)
    | End(id: string)

  function Apply(v: Mux, b: Builder, c: Callback): Mux {
    match c
    case Register(id, _) => Track(v, id)
    case Event(id, ev, now) => OnEvent(v, b, id, ev, now).0
    case Pty(id, raw, now) => SendPty(v, b, id, raw, now).0
    case StateChange(id, to) => OnStateChange(v, id, to).0
    case End(id) => OnEnded(v, id).0
  }

  /** The frame a callback builds, with the number it took. */
  function Built(v: Mux, b: Builder, c: Callback): Option<DaemonFrame> {
    match c
    case Register(id, machineID) => Some(SessionStarted(id, machineID))
    case Event(id, ev, now) => OnEvent(v, b, id, ev, now).1
    case Pty(id, raw, now) => Some(SendPty(v, b, id, raw, now).1)
    case StateChange(id, to) => Some(OnStateChange(v, id, to).1)
    case End(id) => Some(OnEnded(v, id).1)
  }

  function Run(v: Mux, b: Builder, cs: seq<Callback>): Mux
    decreases |cs|
  {
    if cs == [] then v else Run(Apply(v, b, cs[0]), b, cs[1..])
  }

  /** A valid event, a pty chunk and a state change take one number of their session. */
  predicate Numbered(c: Callback, id: string) {
    match c
    case Event(k, ev, _) => k == id && KindOf(ev).Some?
    case Pty(k, _, _) => k == id
    case StateChange(k, _) => k == id
    case _ => false
  }

  function CountNumbered(cs: seq<Callback>, id: string): nat {
    if cs == [] then 0 else (if Numbered(cs[0], id) then 1 else 0) + CountNumbered(cs[1..], id)
  }

  /**
   Connected or not, the number of a session after any callbacks is the number before plus one for
   each valid event, pty chunk and state change, until the session ends; malformed events and
   events of unknown kind, and everything about other sessions, take none.
   */
  lemma {:induction false} EachFrameTakesTheNextNumber(v: Mux, b: Builder, cs: seq<Callback>, id: string)
    requires End(id) !in cs
    requires Peek(v, id) + CountNumbered(cs, id) < TWO_64
    ensures Peek(Run(v, b, cs), id) == Peek(v, id) + CountNumbered(cs, id)
    decreases |cs|
  {
    if cs != [] {
      EachFrameTakesTheNextNumber(Apply(v, b, cs[0]), b, cs[1..], id);
    }
  }

  lemma {:induction false} RunAppend(v: Mux, b: Builder, first: seq<Callback>, second: seq<Callback>)
    ensures Run(v, b, first + second) == Run(Run(v, b, first), b, second)
    decreases |first|
  {
    if first == [] {
      assert first + second == second;
    } else {
      assert (first + second)[1..] == first[1..] + second;
      RunAppend(Apply(v, b, first[0]), b, first[1..], second);
    }
  }

  /** The number a frame carries. */
  function NumberOf(fr: DaemonFrame): Option<int64> {
    if fr.SessionEvent? || fr.SessionPty? || fr.SessionStateChange? || fr.SessionEnded? then Some(fr.seqNo) else None
  }

  lemma BuiltNumber(v: Mux, b: Builder, c: Callback, id: string)
    requires Numbered(c, id) && Peek(v, id) + 1 < INT64_END
    ensures Built(v, b, c).Some? && NumberOf(Built(v, b, c).value) == Some(Peek(v, id) + 1)
  {
  }

  /**
   After a session's end its numbering starts again: whatever came before, the first numbered frame
   carries 1, and each later one the next number, until the session ends again.
   */
  lemma NumberingRestartsAfterEnd(v: Mux, b: Builder, before: seq<Callback>, cs: seq<Callback>, c: Callback, id: string)
    requires End(id) !in cs && Numbered(c, id) && CountNumbered(cs, id) + 1 < INT64_END
    ensures var w := Run(v, b, before + [End(id)] + cs);
            && Built(w, b, c).Some?
            && NumberOf(Built(w, b, c).value) == Some(CountNumbered(cs, id) + 1)
  {
    var u := Run(v, b, before);
    RunAppend(v, b, before + [End(id)], cs);
    RunAppend(v, b, before, [End(id)]);
    assert Run(u, b, [End(id)]) == Apply(u, b, End(id));
    EachFrameTakesTheNextNumber(Apply(u, b, End(id)), b, cs, id);
    BuiltNumber(Run(v, b, before + [End(id)] + cs), b, c, id);
  }

  // ---------------------------------------------------------------------------------------------
  // The pty stream of one session
  // ---------------------------------------------------------------------------------------------

  predicate IsPtyOf(c: Callback, id: string) {
    c.Pty? && c.id == id
  }

  /** The raw bytes of one session, in order. */
  function PtyIn(cs: seq<Callback>, id: string): seq<byte> {
    if cs == [] then [] else (if IsPtyOf(cs[0], id) then cs[0].raw else []) + PtyIn(cs[1..], id)
  }

  /** The bytes put into the session's frames, in order. */
  function PtyOut(v: Mux, b: Builder, cs: seq<Callback>, id: string): seq<byte>
    decreases |cs|
  {
    if cs == [] then []
    else
      (if IsPtyOf(cs[0], id) then S.Out(SanOf(v, id), cs[0].raw) else []) +
      PtyOut(Apply(v, b, cs[0]), b, cs[1..], id)
  }

  lemma ChunkState(v: Mux, b: Builder, c: Callback, id: string)
    ensures SanOf(Apply(v, b, c), id) == if IsPtyOf(c, id) then S.After(SanOf(v, id), c.raw) else SanOf(v, id)
  {
  }

  /** However the chunks of a session are cut and mixed with other callbacks, its frames carry the
      filtered stream. */
  lemma {:induction false} PtyStreamIsFiltered(v: Mux, b: Builder, cs: seq<Callback>, id: string)
    ensures PtyOut(v, b, cs, id) == S.Out(SanOf(v, id), PtyIn(cs, id))
    ensures SanOf(Run(v, b, cs), id) == S.After(SanOf(v, id), PtyIn(cs, id))
    decreases |cs|
  {
    if cs != [] {
      var w := Apply(v, b, cs[0]);
      PtyStreamIsFiltered(w, b, cs[1..], id);
      ChunkState(v, b, cs[0], id);
      if IsPtyOf(cs[0], id) {
        S.RunConcat(SanOf(v, id), cs[0].raw, PtyIn(cs[1..], id));
      } else {
        assert [] + PtyIn(cs[1..], id) == PtyIn(cs[1..], id);
        assert [] + PtyOut(w, b, cs[1..], id) == PtyOut(w, b, cs[1..], id);
      }
    }
  }
}
