/**
 The title filter of the pty stream as a pure byte machine, and the grammar it recognises.
 The grammar is read off the input by a recursive lexer that knows nothing of the machine.
 */
module SanitizerSpec {
  import opened Base

  const ESC: byte := 0x1b
  const BEL: byte := 0x07
  const BACKSLASH: byte := 0x5c
  const BRACKET: byte := 0x5d
  const SEMICOLON: byte := 0x3b
  const MAX_DIGITS := 8

  predicate IsDigit(c: byte) {
    0x30 <= c <= 0x39
  }

  predicate IsTitleParam(p: seq<byte>) {
    |p| == 1 && 0x30 <= p[0] <= 0x32
  }

  /** The machine's observable state: the digits matter only while a parameter is collected. */
  datatype State =
    | Normal
    | Esc
    | OscNum(param: seq<byte>)
    | OscNumEsc(param: seq<byte>)
    | DropTitle
    | DropEsc
    | PassOsc
    | PassOscEsc

  /** The bytes kept back until it is clear what they begin. */
  function Held(st: State): seq<byte> {
    match st
    case Esc => [ESC]
    case OscNum(p) => [ESC, BRACKET] + p
    case OscNumEsc(p) => [ESC, BRACKET] + p + [ESC]
    case _ => []
  }

  function Next(st: State, c: byte): State {
    match st
    case Normal => if c == ESC then Esc else Normal
    case Esc => if c == BRACKET then OscNum([]) else if c == ESC then Esc else Normal
    case OscNum(p) =>
      if IsDigit(c) && |p| < MAX_DIGITS then OscNum(p + [c])
      else if c == SEMICOLON then (if IsTitleParam(p) then DropTitle else PassOsc)
      else if c == BEL then Normal
      else if c == ESC then OscNumEsc(p)
      else PassOsc
    case OscNumEsc(p) => Normal
    case DropTitle => if c == BEL then Normal else if c == ESC then DropEsc else DropTitle
    case DropEsc => if c == BACKSLASH then Normal else DropTitle
    case PassOsc => if c == BEL then Normal else if c == ESC then PassOscEsc else PassOsc
    case PassOscEsc => if c == BACKSLASH then Normal else if c == ESC then PassOscEsc else PassOsc
  }

  function Emit(st: State, c: byte): seq<byte> {
    match st
    case Normal => if c == ESC then [] else [c]
    case Esc => if c == BRACKET then [] else if c == ESC then [ESC] else [ESC, c]
    case OscNum(p) =>
      if IsDigit(c) && |p| < MAX_DIGITS then []
      else if c == ESC || ((c == SEMICOLON || c == BEL) && IsTitleParam(p)) then []
      else Held(st) + [c]
    case OscNumEsc(p) => if c == BACKSLASH && IsTitleParam(p) then [] else Held(st) + [c]
    case DropTitle => []
    case DropEsc => []
    case PassOsc => [c]
    case PassOscEsc => [c]
  }

  function After(st: State, s: seq<byte>): State
    decreases |s|
  {
    if s == [] then st else After(Next(st, s[0]), s[1..])
  }

  function Out(st: State, s: seq<byte>): seq<byte>
    decreases |s|
  {
    if s == [] then [] else Emit(st, s[0]) + Out(Next(st, s[0]), s[1..])
  }

  lemma StepFrom(st: State, s: seq<byte>)
    requires s != []
    ensures After(st, s) == After(Next(st, s[0]), s[1..])
    ensures Out(st, s) == Emit(st, s[0]) + Out(Next(st, s[0]), s[1..])
  {
  }

  lemma Associates(a: seq<byte>, b: seq<byte>, c: seq<byte>)
    ensures a + (b + c) == (a + b) + c
  {
  }

  lemma {:induction false} RunConcat(st: State, a: seq<byte>, b: seq<byte>)
    ensures After(st, a + b) == After(After(st, a), b)
    ensures Out(st, a + b) == Out(st, a) + Out(After(st, a), b)
    decreases |a|
  {
    if a == [] {
      assert a + b == b;
    } else {
      assert (a + b)[1..] == a[1..] + b;
      StepFrom(st, a + b);
      RunConcat(Next(st, a[0]), a[1..], b);
      Associates(Emit(st, a[0]), Out(Next(st, a[0]), a[1..]), Out(After(st, a), b));
    }
  }

  lemma {:induction false} CleanRun(s: seq<byte>)
    requires ESC !in s
    ensures After(Normal, s) == Normal && Out(Normal, s) == s
  {
    if s != [] { CleanRun(s[1..]); }
  }

  // ---------------------------------------------------------------------------------------------
  // Chunks
  // ---------------------------------------------------------------------------------------------

  function Flatten(chunks: seq<seq<byte>>): seq<byte> {
    if chunks == [] then [] else chunks[0] + Flatten(chunks[1..])
  }

  /** The concatenated outputs of one call per chunk, each starting where the last one stopped. */
  function ChunkedOut(st: State, chunks: seq<seq<byte>>): seq<byte>
    decreases |chunks|
  {
    if chunks == [] then [] else Out(st, chunks[0]) + ChunkedOut(After(st, chunks[0]), chunks[1..])
  }

  function ChunkedAfter(st: State, chunks: seq<seq<byte>>): State
    decreases |chunks|
  {
    if chunks == [] then st else ChunkedAfter(After(st, chunks[0]), chunks[1..])
  }

  /** However a stream is cut into chunks, the bytes emitted and the final state are the same. */
  lemma {:induction false} ChunkIndependence(st: State, chunks: seq<seq<byte>>)
    ensures ChunkedOut(st, chunks) == Out(st, Flatten(chunks))
    ensures ChunkedAfter(st, chunks) == After(st, Flatten(chunks))
    decreases |chunks|
  {
    if chunks != [] {
      ChunkIndependence(After(st, chunks[0]), chunks[1..]);
      RunConcat(st, chunks[0], Flatten(chunks[1..]));
    }
  }

  // ---------------------------------------------------------------------------------------------
  // The grammar
  // ---------------------------------------------------------------------------------------------

  function Plus(n: nat, m: Option<nat>): Option<nat> {
    match m case None => None case Some(k) => Some(n + k)
  }

  /** The parameter: at most `max` leading digits. */
  function Digits(s: seq<byte>, max: nat): (n: nat)
    ensures n <= max && n <= |s|
  {
    if max > 0 && s != [] && IsDigit(s[0]) then 1 + Digits(s[1..], max - 1) else 0
  }

  /** Length of a title body with its terminator, BEL or ESC \. An ESC before any other byte
      is discarded together with that byte. */
  function TitleBody(s: seq<byte>): (n: Option<nat>)
    ensures n.Some? ==> 0 < n.value <= |s|
    decreases |s|
  {
    if s == [] then None
    else if s[0] == BEL then Some(1)
    else if s[0] != ESC then Plus(1, TitleBody(s[1..]))
    else if |s| == 1 then None
    else if s[1] == BACKSLASH then Some(2)
    else Plus(2, TitleBody(s[2..]))
  }

  /** Length of another OSC body with its terminator. An ESC hides a following BEL; of several
      ESCs in a row the last one counts. */
  function PassBody(s: seq<byte>): (n: Option<nat>)
    ensures n.Some? ==> 0 < n.value <= |s|
    decreases |s|
  {
    if s == [] then None
    else if s[0] == BEL then Some(1)
    else if s[0] != ESC then Plus(1, PassBody(s[1..]))
    else if |s| == 1 then None
    else if s[1] == BACKSLASH then Some(2)
    else if s[1] == ESC then Plus(1, PassBody(s[1..]))
    else Plus(2, PassBody(s[2..]))
  }

  /** Length of what follows the parameter `p` of an OSC. */
  function AfterParam(p: seq<byte>, s: seq<byte>): (n: Option<nat>)
    ensures n.Some? ==> 0 < n.value <= |s|
  {
    if s == [] then None
    else if s[0] == BEL then Some(1)
    else if s[0] == ESC then if |s| == 1 then None else Some(2)
    else if s[0] == SEMICOLON && IsTitleParam(p) then Plus(1, TitleBody(s[1..]))
    else Plus(1, PassBody(s[1..]))
  }

  /** Length of the first complete token of `s`, if there is one. */
  function FirstToken(s: seq<byte>): (n: Option<nat>)
    ensures n.Some? ==> 0 < n.value <= |s|
  {
    if s == [] then None
    else if s[0] != ESC then Some(1)
    else if |s| == 1 then None
    else if s[1] == ESC then Some(1)
    else if s[1] != BRACKET then Some(2)
    else
      var k := Digits(s[2..], MAX_DIGITS);
      Plus(2 + k, AfterParam(s[2..2 + k], s[2 + k..]))
  }

  /** The complete tokens of a stream, and the incomplete rest. */
  function Tokens(s: seq<byte>): seq<seq<byte>>
    decreases |s|
  {
    match FirstToken(s)
    case None => []
    case Some(n) => [s[..n]] + Tokens(s[n..])
  }

  function Rest(s: seq<byte>): seq<byte>
    decreases |s|
  {
    match FirstToken(s)
    case None => s
    case Some(n) => Rest(s[n..])
  }

  /** OSC 0, 1 or 2 with one digit, then a body or directly a terminator. */
  predicate IsTitle(t: seq<byte>) {
    && |t| >= 4 && t[0] == ESC && t[1] == BRACKET && 0x30 <= t[2] <= 0x32
    && (t[3] == SEMICOLON || t[3] == BEL || (|t| >= 5 && t[3] == ESC && t[4] == BACKSLASH))
  }

  function Keep(tokens: seq<seq<byte>>, titles: bool): seq<seq<byte>> {
    if tokens == [] then []
    else (if IsTitle(tokens[0]) == titles then [tokens[0]] else []) + Keep(tokens[1..], titles)
  }

  lemma FlattenCons(t: seq<byte>, rest: seq<seq<byte>>)
    ensures Flatten([t] + rest) == t + Flatten(rest)
  {
    assert ([t] + rest)[1..] == rest;
  }

  lemma Glue(s: seq<byte>, n: nat, f: seq<byte>, r: seq<byte>)
    requires n <= |s| && f + r == s[n..]
    ensures (s[..n] + f) + r == s
  {
    assert s[..n] + (f + r) == s;
  }

  /** Tokens and rest together are the input, and the rest holds no further token. */
  lemma {:induction false} TokensCoverInput(s: seq<byte>)
    ensures Flatten(Tokens(s)) + Rest(s) == s
    ensures FirstToken(Rest(s)).None?
    decreases |s|
  {
    var f := FirstToken(s);
    if f.Some? {
      TokensCoverInput(s[f.value..]);
      FlattenCons(s[..f.value], Tokens(s[f.value..]));
      Glue(s, f.value, Flatten(Tokens(s[f.value..])), Rest(s[f.value..]));
    }
  }
}
