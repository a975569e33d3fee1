/**
 The daemon's side of the link is the multiplex: each registry callback is a series of steps of
 `Link`, and a handshake over the live sessions is its `Connect`.
 */
module LinkCallbacks {
  import opened Base
  import opened IngestSpec
  import opened MuxSpec
  import opened Link
  import D = DaemonSpec
  import S = SanitizerSpec

  ghost predicate Playable(s: Net, steps: seq<Step>)
    decreases |steps|
  {
    steps == [] || (Enabled(s, steps[0]) && Playable(Do(s, steps[0]), steps[1..]))
  }

  function Played(s: Net, steps: seq<Step>): Net
    requires Playable(s, steps)
    decreases |steps|
  {
    if steps == [] then s else Played(Do(s, steps[0]), steps[1..])
  }

  lemma {:induction false} PlayedAppend(s: Net, first: seq<Step>, second: seq<Step>)
    requires Playable(s, first) && Playable(Played(s, first), second)
    ensures Playable(s, first + second) && Played(s, first + second) == Played(Played(s, first), second)
    decreases |first|
  {
    if first == [] {
      assert first + second == second;
    } else {
      assert (first + second)[1..] == first[1..] + second;
      PlayedAppend(Do(s, first[0]), first[1..], second);
    }
  }

  // ---------------------------------------------------------------------------------------------
  // Callbacks
  // ---------------------------------------------------------------------------------------------

  function TimeOf(ev: ExtEvent, now: int): int {
    if ev.ts == 0 then now else ev.ts
  }

  /** The steps a callback takes until its frame is held: a number first where it takes one. */
  function StepsOf(v: Mux, b: Builder, c: Callback): seq<Step> {
    match c
    case Register(id, machineID) => [Build(SessionStarted(id, machineID))]
    case Event(id, ev, now) =>
      (match KindOf(ev)
       case None => []
       case Some(kind) =>
         var ts := TimeOf(ev.value, now);
         [TakeNumber(id, EventBody(kind, ts, b.event(id, Succ64(Peek(v, id)), kind, ts, ev.value.data)))])
    case Pty(id, raw, now) =>
      [TakeNumber(id, PtyBody(now, b.pty(id, Succ64(Peek(v, id)), S.Out(SanOf(v, id), raw), now)))]
    case StateChange(id, to) => [TakeNumber(id, StateBody(to))]
    case End(id) => [TakeNumber(id, EndBody), Forget(id)]
  }

  function Held(fr: Option<DaemonFrame>): seq<DaemonFrame> {
    if fr.Some? then [fr.value] else []
  }

  /** Callbacks leave the connection and the coordinator alone. */
  ghost predicate SameFar(s: Net, t: Net) {
    t.up == s.up && t.reading == s.reading && t.wire == s.wire && t.conn == s.conn && t.coord == s.coord
  }

  ghost predicate Matches(s: Net, frames: seq<DaemonFrame>, t: Net, w: Mux) {
    t.mux.seqs == w.seqs && t.held == s.held + frames && SameFar(s, t)
  }

  lemma PlayedOne(s: Net, step: Step)
    requires Enabled(s, step)
    ensures Playable(s, [step]) && Played(s, [step]) == Do(s, step)
  {
    assert [step][1..] == [];
  }

  predicate TakesNumber(c: Callback) {
    Numbered(c, c.id) || c.End?
  }

  lemma EndIsSteps(s: Net, v: Mux, b: Builder, id: string)
    requires s.mux.seqs == v.seqs && Peek(v, id) + 1 < INT64_END
    ensures Playable(s, StepsOf(v, b, End(id)))
    ensures Matches(s, Held(Built(v, b, End(id))), Played(s, StepsOf(v, b, End(id))), Apply(v, b, End(id)))
  {
    var take := TakeNumber(id, EndBody);
    PlayedOne(s, take);
    PlayedOne(Do(s, take), Forget(id));
    PlayedAppend(s, [take], [Forget(id)]);
  }

  /** The frame the multiplex builds is the one that `Link` frames with the number just taken. */
  lemma CallbackIsSteps(s: Net, v: Mux, b: Builder, c: Callback)
    requires s.mux.seqs == v.seqs && (TakesNumber(c) ==> Peek(v, c.id) + 1 < INT64_END)
    ensures Playable(s, StepsOf(v, b, c))
    ensures Matches(s, Held(Built(v, b, c)), Played(s, StepsOf(v, b, c)), Apply(v, b, c))
  {
    if c.End? {
      EndIsSteps(s, v, b, c.id);
    } else if StepsOf(v, b, c) == [] {
      assert s.held + [] == s.held;
    } else {
      PlayedOne(s, StepsOf(v, b, c)[0]);
    }
  }

  lemma MatchesChain(s: Net, first: seq<DaemonFrame>, t: Net, v: Mux, second: seq<DaemonFrame>, u: Net, w: Mux)
    requires Matches(s, first, t, v) && Matches(t, second, u, w)
    ensures Matches(s, first + second, u, w)
  {
    assert (s.held + first) + second == s.held + (first + second);
  }

  function AllSteps(v: Mux, b: Builder, cs: seq<Callback>): seq<Step>
    decreases |cs|
  {
    if cs == [] then [] else StepsOf(v, b, cs[0]) + AllSteps(Apply(v, b, cs[0]), b, cs[1..])
  }

  function AllBuilt(v: Mux, b: Builder, cs: seq<Callback>): seq<DaemonFrame>
    decreases |cs|
  {
    if cs == [] then [] else Held(Built(v, b, cs[0])) + AllBuilt(Apply(v, b, cs[0]), b, cs[1..])
  }

  /** No number reaches the end of the coordinator's range. */
  predicate InRange(v: Mux, b: Builder, cs: seq<Callback>)
    decreases |cs|
  {
    cs == [] || ((TakesNumber(cs[0]) ==> Peek(v, cs[0].id) + 1 < INT64_END) && InRange(Apply(v, b, cs[0]), b, cs[1..]))
  }

  /**
   Whatever callbacks the multiplex receives, in whatever state the link is: their steps are steps
   of the link, which then holds exactly the frames the multiplex built, in order, and every
   session's number is the multiplex's.
   */
  lemma {:induction false} CallbacksAreSteps(s: Net, v: Mux, b: Builder, cs: seq<Callback>)
    requires s.mux.seqs == v.seqs && InRange(v, b, cs)
    ensures Playable(s, AllSteps(v, b, cs))
    ensures Matches(s, AllBuilt(v, b, cs), Played(s, AllSteps(v, b, cs)), Run(v, b, cs))
    decreases |cs|
  {
    if cs == [] {
      assert s.held + [] == s.held;
    } else {
      var first, w := StepsOf(v, b, cs[0]), Apply(v, b, cs[0]);
      CallbackIsSteps(s, v, b, cs[0]);
      var t := Played(s, first);
      CallbacksAreSteps(t, w, b, cs[1..]);
      PlayedAppend(s, first, AllSteps(w, b, cs[1..]));
      MatchesChain(s, Held(Built(v, b, cs[0])), t, w, AllBuilt(w, b, cs[1..]), Played(t, AllSteps(w, b, cs[1..])),
        Run(w, b, cs[1..]));
    }
  }

  // ---------------------------------------------------------------------------------------------
  // The handshake
  // ---------------------------------------------------------------------------------------------

  function IdsOf(live: seq<(string, uint64)>): (r: seq<string>)
    ensures |r| == |live|
  {
    seq(|live|, i requires 0 <= i < |live| => live[i].0)
  }

  /**
   The handshake writes machine_register and one resume for each session of the snapshot with the
   snapshot's number: that is `Connect` over exactly the announced sessions.
   */
  lemma HandshakeIsConnect(s: Net, machineID: string, live: seq<(string, uint64)>, reg: D.Reg, dead: set<int>)
    requires Lists(live, s.mux, reg, dead)
    ensures forall id :: id in IdsOf(live) <==>
              && id in reg.sessions && reg.sessions[id].state != Ended
              && (reg.sessions[id].pid <= 0 || reg.sessions[id].pid !in dead)
    ensures Enabled(s, Connect(machineID, IdsOf(live))) <==> forall i :: 0 <= i < |live| ==> live[i].1 < INT64_END
    ensures Enabled(s, Connect(machineID, IdsOf(live))) ==>
              Do(s, Connect(machineID, IdsOf(live))).wire ==
              [MachineRegister(machineID)] +
              seq(|live|, i requires 0 <= i < |live| => ResumeFrame(live[i].0, live[i].1))
  {
    var ids := IdsOf(live);
    forall i | 0 <= i < |live| ensures ids[i] == live[i].0 && Peek(s.mux, ids[i]) == live[i].1 {
      assert (live[i].0, live[i].1) in live;
    }
    forall id | Announced(reg, dead, id) ensures id in ids {
      var i :| 0 <= i < |live| && live[i] == (id, Peek(s.mux, id));
      assert ids[i] == id;
    }
  }
}
