/** The sanitizer object of a pty stream, proved against the machine of `SanitizerSpec`. */
module Sanitizers {
  import opened Base
  import S = SanitizerSpec

  datatype SanState =
    | StNormal | StEsc | StOscNum | StOscNumEsc | StDropTitle | StDropEsc | StPassOsc | StPassOscEsc

  method ContainsEsc(b: seq<byte>) returns (found: bool)
    ensures found <==> S.ESC in b
  {
    for i := 0 to |b|
      invariant S.ESC !in b[..i]
    {
      if b[i] == S.ESC {
        return true;
      }
      assert b[..i + 1] == b[..i] + [b[i]];
    }
    assert b[..|b|] == b;
    return false;
  }

  class Sanitizer {
    var state: SanState
    var pending: seq<byte>    // bytes held while deciding whether a sequence is a title
    var param: seq<byte>      // the parameter's digits

    /** The machine state this object stands for. `pending` and `param` may be stale elsewhere. */
    ghost function Value(): S.State
      reads this
    {
      match state
      case StNormal => S.Normal
      case StEsc => S.Esc
      case StOscNum => S.OscNum(param)
      case StOscNumEsc => S.OscNumEsc(param)
      case StDropTitle => S.DropTitle
      case StDropEsc => S.DropEsc
      case StPassOsc => S.PassOsc
      case StPassOscEsc => S.PassOscEsc
    }

    /** While a sequence is undecided, `pending` is what the machine holds back, up to a last ESC. */
    ghost predicate Valid()
      reads this
    {
      && (state.StEsc? ==> pending == [S.ESC])
      && (state.StOscNum? || state.StOscNumEsc? ==> pending == [S.ESC, S.BRACKET] + param && |param| <= S.MAX_DIGITS)
    }

    constructor ()
      ensures Valid() && Value() == S.Normal
    {
      state, pending, param := StNormal, [], [];
    }

    /** A byte that decides nothing, or decides the parameter. */
    method TakeInParam(c: byte) returns (o: seq<byte>)
      requires Valid() && state == StOscNum
      modifies this
      ensures Valid() && Value() == S.Next(old(Value()), c) && o == S.Emit(old(Value()), c)
    {
      if S.IsDigit(c) && |param| < S.MAX_DIGITS {
        param, pending := param + [c], pending + [c];
        return [];
      }
      if c == S.SEMICOLON {
        if S.IsTitleParam(param) {
          state, pending := StDropTitle, [];
          return [];
        }
        state := StPassOsc;
        return pending + [c];
      }
      if c == S.BEL {
        state := StNormal;
        if S.IsTitleParam(param) {
          pending := [];
          return [];
        }
        return pending + [c];
      }
      if c == S.ESC {
        state := StOscNumEsc;
        return [];
      }
      state := StPassOsc;
      return pending + [c];
    }

    /** The byte after an ESC within the parameter: the sequence is over either way. */
    method TakeAfterParamEsc(c: byte) returns (o: seq<byte>)
      requires Valid() && state == StOscNumEsc
      modifies this
      ensures Valid() && Value() == S.Next(old(Value()), c) && o == S.Emit(old(Value()), c)
    {
      state := StNormal;
      if c == S.BACKSLASH {
        if S.IsTitleParam(param) {
          pending := [];
          return [];
        }
        return pending + [S.ESC, S.BACKSLASH];
      }
      return pending + [S.ESC, c];
    }

    /** The body of Sanitize's loop: one byte in, the bytes to append to the output. */
    method Take(c: byte) returns (o: seq<byte>)
      requires Valid()
      modifies this
      ensures Valid() && Value() == S.Next(old(Value()), c) && o == S.Emit(old(Value()), c)
    {
      match state
      case StNormal =>
        if c == S.ESC {
          state, pending := StEsc, [c];
          return [];
        }
        return [c];
      case StEsc =>
        if c == S.BRACKET {
          state, pending, param := StOscNum, pending + [c], [];
          return [];
        }
        if c == S.ESC {
          return [S.ESC];
        }
        state := StNormal;
        return [S.ESC, c];
      case StOscNum =>
        o := TakeInParam(c);
      case StOscNumEsc =>
        o := TakeAfterParamEsc(c);
      case StDropTitle =>
        if c == S.BEL {
          state := StNormal;
        } else if c == S.ESC {
          state := StDropEsc;
        }
        return [];
      case StDropEsc =>
        state := if c == S.BACKSLASH then StNormal else StDropTitle;
        return [];
      case StPassOsc =>
        if c == S.BEL {
          state := StNormal;
        } else if c == S.ESC {
          state := StPassOscEsc;
        }
        return [c];
      case StPassOscEsc =>
        if c == S.BACKSLASH || c != S.ESC {
          state := StPassOsc;
        }
        if c == S.BACKSLASH {
          state := StNormal;
        }
        return [c];
    }

    method SanitizeSlowly(b: seq<byte>) returns (out: seq<byte>)
      requires Valid()
      modifies this
      ensures Valid() && Value() == S.After(old(Value()), b) && out == S.Out(old(Value()), b)
    {
      out := [];
      for i := 0 to |b|
        invariant Valid() && S.After(Value(), b[i..]) == S.After(old(Value()), b)
        invariant out + S.Out(Value(), b[i..]) == S.Out(old(Value()), b)
      {
        S.StepFrom(Value(), b[i..]);
        assert b[i..][1..] == b[i + 1..];
        ghost var st := Value();
        var o := Take(b[i]);
        S.Associates(out, o, S.Out(Value(), b[i + 1..]));
        out := out + o;
      }
      if state == StNormal {
        pending := [];
      }
    }

    /** One chunk of the stream. A chunk without ESC is returned as it is in the start state. */
    method Sanitize(b: seq<byte>) returns (out: seq<byte>)
      requires Valid()
      modifies this
      ensures Valid() && Value() == S.After(old(Value()), b) && out == S.Out(old(Value()), b)
    {
      var esc := ContainsEsc(b);
      if state == StNormal && !esc {
        S.CleanRun(b);
        return b;
      }
      out := SanitizeSlowly(b);
    }
  }
}
