/** What the multiplex makes of kinds and numbers, spelled out. */
module MuxEffects {
  import opened Base
  import opened IngestSpec
  import opened MuxSpec
  import D = DaemonSpec
  import S = SanitizerSpec
  import Bytes = SanitizerBytes

  /** The name of an event kind on the wire. */
  function Name(kind: EventKind): string {
    match kind
    case AgentStart => "agent_start"
    case AgentEnd => "agent_end"
    case AttentionDialog => "attention_dialog"
    case CompactionStart => "compaction_start"
    case CompactionEnd => "compaction_end"
    case ExtensionError => "extension_error"
    case ModelSelect => "model_select"
    case QueueUpdate => "queue_update"
    case ToolFailure => "tool_failure"
  }

  lemma NamesDiffer(a: EventKind, b: EventKind)
    requires Name(a) == Name(b)
    ensures a == b
  {
    assert |"agent_start"| == 11 && |"agent_end"| == 9 && |"attention_dialog"| == |"compaction_start"| == 16;
    assert |"compaction_end"| == 14 && |"extension_error"| == 15 && |"model_select"| == |"queue_update"| == 12;
    assert |"tool_failure"| == 12;
    assert "attention_dialog"[0] != "compaction_start"[0] && "model_select"[0] != "queue_update"[0];
    assert "tool_failure"[0] != "queue_update"[0] && "tool_failure"[0] != "model_select"[0];
  }

  /** A kind is known if and only if it is the name of one, and then it is that one. */
  lemma KnownKindsAreNamed(name: string, kind: EventKind)
    ensures KnownKind(name) == Some(kind) <==> name == Name(kind)
  {
    if name == Name(kind) {
      KnownByName(kind);
    }
  }

  lemma KnownByName(kind: EventKind)
    ensures KnownKind(Name(kind)) == Some(kind)
  {
    var k := KnownKind(Name(kind));
    assert k.Some? && Name(k.value) == Name(kind);
    NamesDiffer(k.value, kind);
  }

  /** An event takes a number if and only if it decodes and its kind is one of the nine. */
  lemma NumberedExactly(id: string, ev: Option<ExtEvent>, now: int)
    ensures Numbered(Event(id, ev, now), id) <==> ev.Some? && exists kind :: ev.value.kind == Name(kind)
  {
    if ev.Some? {
      if kind :| ev.value.kind == Name(kind) {
        KnownByName(kind);
        assert |Name(kind)| > 0;
      }
      if KindOf(ev).Some? {
        KnownKindsAreNamed(ev.value.kind, KindOf(ev).value);
      }
    }
  }

  /** The frame of a valid event carries the next number, its own kind, and its time or else the present. */
  lemma EventFrameExactly(v: Mux, b: Builder, id: string, ev: ExtEvent, kind: EventKind, now: int)
    requires ev.kind == Name(kind) && Peek(v, id) + 1 < 0x8000_0000_0000_0000
    ensures var n, ts := Peek(v, id) + 1, if ev.ts == 0 then now else ev.ts;
            && OnEvent(v, b, id, Some(ev), now).1 ==
                 Some(SessionEvent(id, n, kind, ts, b.event(id, n, kind, ts, ev.data)))
            && OnEvent(v, b, id, Some(ev), now).0 == v.(seqs := v.seqs[id := n])
  {
    KnownByName(kind);
    assert |Name(kind)| > 0;
  }

  /** A chunk's frame carries the next number and the chunk as the session's own filter lets it through;
      the filter moves on by this chunk, and those of other sessions do not. */
  lemma ChunkFrameExactly(v: Mux, b: Builder, id: string, raw: seq<byte>, now: int)
    requires Peek(v, id) + 1 < 0x8000_0000_0000_0000
    ensures var n, st := Peek(v, id) + 1, if id in v.sans then v.sans[id] else S.Normal;
            && SendPty(v, b, id, raw, now).1 == SessionPty(id, n, now, b.pty(id, n, S.Out(st, raw), now))
            && SendPty(v, b, id, raw, now).0 == Mux(v.seqs[id := n], v.sans[id := S.After(st, raw)])
  {
  }

  /** A title that arrives in one chunk never leaves the daemon. */
  lemma TitleIsNotSent(v: Mux, b: Builder, id: string, d: byte, body: seq<byte>, now: int)
    requires Peek(v, id) + 1 < 0x8000_0000_0000_0000 && (id in v.sans ==> v.sans[id] == S.Normal)
    requires 0x30 <= d <= 0x32 && Bytes.Plain(body)
    ensures var n := Peek(v, id) + 1;
            SendPty(v, b, id, [0x1b, 0x5d, d, 0x3b] + (body + [0x07]), now).1 ==
                SessionPty(id, n, now, b.pty(id, n, [], now))
  {
    Bytes.TitlesVanish(d, body);
  }

  /** A state change and an end carry the next number; after an end the session has no number. */
  lemma MarkFramesExactly(v: Mux, id: string, to: Status)
    requires Peek(v, id) + 1 < 0x8000_0000_0000_0000
    ensures OnStateChange(v, id, to) ==
            (v.(seqs := v.seqs[id := Peek(v, id) + 1]), SessionStateChange(id, Peek(v, id) + 1, to))
    ensures OnEnded(v, id) == (v.(seqs := v.seqs - {id}), SessionEnded(id, Peek(v, id) + 1))
  {
  }

  /** Frames carry the numbers below 2^63 as they are; a greater one makes a frame that does not decode. */
  lemma FramesCarryNumbers(id: string, n: uint64, to: Status)
    ensures EndedFrame(id, n) == if n < 0x8000_0000_0000_0000 then SessionEnded(id, n) else BadBody(false)
    ensures StateFrame(id, n, to) == if n < 0x8000_0000_0000_0000 then SessionStateChange(id, n, to) else BadBody(false)
    ensures ResumeFrame(id, n) == if n < 0x8000_0000_0000_0000 then SessionResume(id, n) else BadBody(false)
  {
  }

  /** Announced on a reconnect: every registered session that has not ended, unless its process is
      known and known to be dead. */
  lemma AnnouncedExactly(reg: D.Reg, dead: set<int>, id: string)
    ensures Announced(reg, dead, id) <==>
            && id in reg.sessions && reg.sessions[id].state != Ended
            && (reg.sessions[id].pid <= 0 || reg.sessions[id].pid !in dead)
  {
  }
}
