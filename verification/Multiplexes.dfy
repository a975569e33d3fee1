/** The multiplex object: it numbers and sends the frames, proved against `MuxSpec`. */
module Multiplexes {
  import opened Base
  import opened IngestSpec
  import opened MuxSpec
  import opened Sanitizers
  import opened DaemonRegistries
  import D = DaemonSpec
  import S = SanitizerSpec

  class SeqAllocator {
    var n: uint64

    constructor ()
      ensures n == 0
    {
      n := 0;
    }

    method Next() returns (r: uint64)
      modifies this
      ensures n == r == (old(n) + 1) % 0x1_0000_0000_0000_0000
    {
      n := Succ64(n);
      return n;
    }

    method Peek() returns (r: uint64)
      ensures r == n
    {
      return n;
    }
  }

  /** The coordinator client as the multiplex sees it: up or down, and the frames written. */
  class Coord {
    var up: bool
    var sent: seq<DaemonFrame>

    constructor ()
      ensures !up && sent == []
    {
      up, sent := false, [];
    }

    /** `writes` says whether the network takes the frame. */
    method Send(f: DaemonFrame, writes: bool) returns (ok: bool)
      modifies `sent
      ensures ok == (up && writes)
      ensures sent == old(sent) + if ok then [f] else []
    {
      if !up || !writes {
        return false;
      }
      sent := sent + [f];
      return true;
    }
  }

  class Multiplex {
    const coord: Coord
    const frames: Builder
    const machineID: string
    var seqs: map<string, SeqAllocator>
    var sanitizers: map<string, Sanitizer>

    /** The allocators stand at the numbers `n`, and no two sessions share one. */
    ghost predicate Counts(n: map<string, uint64>)
      reads `seqs, seqs.Values
    {
      && n.Keys == seqs.Keys
      && (forall id :: id in seqs ==> seqs[id].n == n[id])
      && (forall a, b :: a in seqs && b in seqs && a != b ==> seqs[a] != seqs[b])
    }

    /** The sanitizers are in the states `f`, and no two sessions share one. */
    ghost predicate Filters(f: map<string, S.State>)
      reads `sanitizers, sanitizers.Values
    {
      && f.Keys == sanitizers.Keys
      && (forall id :: id in sanitizers ==> sanitizers[id].Valid() && sanitizers[id].Value() == f[id])
      && (forall a, b :: a in sanitizers && b in sanitizers && a != b ==> sanitizers[a] != sanitizers[b])
    }

    /** The multiplex holds the value `v`. */
    ghost predicate Is(v: Mux)
      reads this, seqs.Values, sanitizers.Values
    {
      Counts(v.seqs) && Filters(v.sans)
    }

    constructor (coord: Coord, frames: Builder, machineID: string)
      ensures Is(Mux(map[], map[])) && this.coord == coord && this.frames == frames && this.machineID == machineID
    {
      this.coord, this.frames, this.machineID := coord, frames, machineID;
      seqs, sanitizers := map[], map[];
    }

    method AllocFor(id: string, ghost v: Mux) returns (a: SeqAllocator)
      requires Counts(v.seqs)
      modifies `seqs
      ensures Counts(Track(v, id).seqs) && id in seqs && seqs[id] == a
      ensures if id in old(seqs) then seqs == old(seqs) else fresh(a) && seqs == old(seqs)[id := a]
    {
      if id !in seqs {
        a := new SeqAllocator();
        seqs := seqs[id := a];
      }
      a := seqs[id];
    }

    method DropAlloc(id: string, ghost v: Mux)
      requires Counts(v.seqs)
      modifies `seqs
      ensures Counts(Untrack(v, id).seqs) && seqs == old(seqs) - {id}
    {
      seqs := seqs - {id};
    }

    method NextFor(id: string, ghost v: Mux) returns (n: uint64)
      requires Counts(v.seqs)
      modifies `seqs, seqs.Values
      ensures Counts(Take(v, id).seqs) && n == MuxSpec.Peek(Take(v, id), id)
    {
      var a := AllocFor(id, v);
      n := a.Next();
    }

    /** Drop the frame while the link is down; an error on the way is the same as a drop. */
    method Forward(f: DaemonFrame, writes: bool) returns (ok: bool)
      modifies coord`sent
      ensures ok == (coord.up && writes)
      ensures coord.sent == old(coord.sent) + if ok then [f] else []
    {
      if !coord.up {
        return false;
      }
      ok := coord.Send(f, writes);
    }

    method OnRegister(id: string, writes: bool, ghost v: Mux)
      requires Is(v)
      modifies `seqs, coord`sent
      ensures Is(Track(v, id))
      ensures coord.sent == old(coord.sent) + if coord.up && writes then [SessionStarted(id, machineID)] else []
    {
      var _ := AllocFor(id, v);
      var _ := Forward(SessionStarted(id, machineID), writes);
    }

    method OnEvent(id: string, ev: Option<ExtEvent>, now: int, writes: bool, ghost v: Mux)
      requires Is(v)
      modifies `seqs, seqs.Values, coord`sent
      ensures Is(MuxSpec.OnEvent(v, frames, id, ev, now).0)
      ensures var f := MuxSpec.OnEvent(v, frames, id, ev, now).1;
              coord.sent == old(coord.sent) + if f.Some? && coord.up && writes then [f.value] else []
    {
      if ev.None? || ev.value.kind == "" {
        return;
      }
      var known := KnownKind(ev.value.kind);
      if known.None? {
        return;
      }
      var ts := if ev.value.ts == 0 then now else ev.value.ts;
      var kind, data := known.value, ev.value.data;
      var _ := Number(id, (n: uint64) => EventFrame(id, n, kind, ts, frames.event(id, n, kind, ts, data)), writes, v);
    }

    /** Take the session's next number and send the frame it goes into. */
    method Number(id: string, build: uint64 -> DaemonFrame, writes: bool, ghost v: Mux) returns (ok: bool)
      requires Counts(v.seqs)
      modifies `seqs, seqs.Values, coord`sent
      ensures Counts(Take(v, id).seqs)
      ensures ok == (coord.up && writes)
      ensures coord.sent == old(coord.sent) + if ok then [build(MuxSpec.Peek(Take(v, id), id))] else []
    {
      var n := NextFor(id, v);
      ok := Forward(build(n), writes);
    }

    method OnEnded(id: string, writes: bool, ghost v: Mux)
      requires Is(v)
      modifies `seqs, seqs.Values, coord`sent
      ensures Is(MuxSpec.OnEnded(v, id).0)
      ensures coord.sent == old(coord.sent) + if coord.up && writes then [MuxSpec.OnEnded(v, id).1] else []
    {
      NumberLast(id, writes, v);
      assert Filters(v.sans);
    }

    /** The end takes a number of its own; then the allocator is forgotten. */
    method NumberLast(id: string, writes: bool, ghost v: Mux)
      requires Counts(v.seqs)
      modifies `seqs, seqs.Values, coord`sent
      ensures Counts(Untrack(v, id).seqs)
      ensures coord.sent == old(coord.sent) + if coord.up && writes then [MuxSpec.OnEnded(v, id).1] else []
    {
      var _ := Number(id, (n: uint64) => EndedFrame(id, n), writes, v);
      DropAlloc(id, Take(v, id));
      assert Untrack(Take(v, id), id) == Untrack(v, id);
    }

    method OnStateChange(id: string, to: Status, writes: bool, ghost v: Mux)
      requires Is(v)
      modifies `seqs, seqs.Values, coord`sent
      ensures Is(MuxSpec.OnStateChange(v, id, to).0)
      ensures coord.sent == old(coord.sent) + if coord.up && writes then [MuxSpec.OnStateChange(v, id, to).1] else []
    {
      var _ := Number(id, (n: uint64) => StateFrame(id, n, to), writes, v);
    }

    method SanFor(id: string, ghost v: Mux) returns (san: Sanitizer)
      requires Filters(v.sans)
      modifies `sanitizers
      ensures Filters(v.sans[id := SanOf(v, id)]) && id in sanitizers && sanitizers[id] == san
      ensures if id in old(sanitizers) then sanitizers == old(sanitizers)
              else fresh(san) && sanitizers == old(sanitizers)[id := san]
    {
      if id !in sanitizers {
        san := new Sanitizer();
        sanitizers := sanitizers[id := san];
      }
      san := sanitizers[id];
    }

    /** Run one chunk through the session's sanitizer, created on first use. */
    method Filter(id: string, raw: seq<byte>, ghost v: Mux) returns (out: seq<byte>)
      requires Filters(v.sans)
      modifies `sanitizers, sanitizers.Values
      ensures out == S.Out(SanOf(v, id), raw)
      ensures Filters(v.sans[id := S.After(SanOf(v, id), raw)])
    {
      var san := SanFor(id, v);
      out := san.Sanitize(raw);
    }

    method SendPty(id: string, raw: seq<byte>, now: int, writes: bool, ghost v: Mux) returns (ok: bool)
      requires Is(v)
      modifies `seqs, seqs.Values, `sanitizers, sanitizers.Values, coord`sent
      ensures Is(MuxSpec.SendPty(v, frames, id, raw, now).0)
      ensures ok == (coord.up ==> writes)
      ensures coord.sent == old(coord.sent) +
              if coord.up && writes then [MuxSpec.SendPty(v, frames, id, raw, now).1] else []
    {
      var bytes := Filter(id, raw, v);
      assert Counts(v.seqs);
      ok := Number(id, (n: uint64) => SessionPty(id, ToInt(n), now, frames.pty(id, n, bytes, now)), writes, v);
      return ok || !coord.up;
    }

    /** The sessions to announce after a reconnect, each with its last number. */
    method LiveSessions(reg: Registry, dead: set<int>, ghost v: Mux, ghost r: D.Reg)
      returns (out: seq<(string, uint64)>)
      requires Is(v) && reg.Is(r)
      ensures Lists(out, v, r, dead)
    {
      var live := reg.Snapshot(r);
      out := [];
      for i := 0 to |live|
        invariant forall j, k :: 0 <= j < k < |out| ==> out[j].0 != out[k].0
        invariant forall id, n :: (id, n) in out <==>
          n == MuxSpec.Peek(v, id) && id in Ids(live)[..i] && Announced(r, dead, id)
      {
        var (id, s) := live[i];
        assert Ids(live)[..i + 1] == Ids(live)[..i] + [id];
        if s.pid > 0 && s.pid in dead {
          continue;
        }
        var last: uint64 := 0;
        if id in seqs {
          last := seqs[id].Peek();
        }
        out := out + [(id, last)];
      }
      assert Ids(live)[..|live|] == Ids(live);
    }
  }
}
