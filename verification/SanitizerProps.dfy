/** The machine is the token filter: it removes the title tokens of the grammar and nothing else. */
module SanitizerProps {
  import opened Base
  import opened SanitizerSpec

  // ---------------------------------------------------------------------------------------------
  // The machine on each part of a token
  // ---------------------------------------------------------------------------------------------

  lemma {:induction false} TitleBodyRun(s: seq<byte>)
    ensures Out(DropTitle, s) == [] || TitleBody(s).Some?
    ensures TitleBody(s).None? ==> After(DropTitle, s) in {DropTitle, DropEsc}
    ensures TitleBody(s).Some? ==>
      After(DropTitle, s[..TitleBody(s).value]) == Normal && Out(DropTitle, s[..TitleBody(s).value]) == []
    decreases |s|
  {
    if s == [] || s[0] == BEL {
    } else if s[0] != ESC {
      TitleBodyRun(s[1..]);
      PrefixTail(s, 1, TitleBody(s[1..]));
    } else if |s| > 1 {
      TwoSteps(DropTitle, s);
      if s[1] != BACKSLASH {
        TitleBodyRun(s[2..]);
        PrefixTail(s, 2, TitleBody(s[2..]));
      }
      if TitleBody(s).Some? { TwoSteps(DropTitle, s[..TitleBody(s).value]); }
    }
  }

  /** The prefix of a token that `Plus` measures, cut after its first `n` bytes. */
  lemma PrefixTail(s: seq<byte>, n: nat, m: Option<nat>)
    requires n <= |s| && (m.Some? ==> m.value <= |s| - n)
    ensures m.Some? ==> s[..n + m.value][n..] == s[n..][..m.value] && s[..n + m.value][..n] == s[..n]
  {
  }

  lemma TwoSteps(st: State, s: seq<byte>)
    requires |s| >= 2
    ensures After(st, s) == After(Next(Next(st, s[0]), s[1]), s[2..])
    ensures Out(st, s) == Emit(st, s[0]) + Emit(Next(st, s[0]), s[1]) + Out(Next(Next(st, s[0]), s[1]), s[2..])
  {
    StepFrom(st, s);
    StepFrom(Next(st, s[0]), s[1..]);
    assert s[1..][1..] == s[2..];
    Associates(Emit(st, s[0]), Emit(Next(st, s[0]), s[1]), Out(Next(Next(st, s[0]), s[1]), s[2..]));
  }

  /** The machine in PassOsc passes everything on and stops where the body stops. */
  ghost predicate PassesBody(s: seq<byte>) {
    match PassBody(s)
    case None => After(PassOsc, s) in {PassOsc, PassOscEsc} && Out(PassOsc, s) == s
    case Some(n) => After(PassOsc, s[..n]) == Normal && Out(PassOsc, s[..n]) == s[..n]
  }

  lemma {:induction false} PassBodyRun(s: seq<byte>)
    ensures PassesBody(s)
    decreases |s|
  {
    if s == [] || s[0] == BEL || s == [ESC] {
    } else if s[0] != ESC {
      PassBodyRun(s[1..]);
      PrefixTail(s, 1, PassBody(s[1..]));
    } else if s[1] == ESC {
      PassBodyRun(s[1..]);
      PassEscEsc(s);
    } else {
      PassBodyRun(s[2..]);
      PassEscPair(s);
    }
  }

  lemma PassEscPair(s: seq<byte>)
    requires |s| >= 2 && s[0] == ESC != s[1] && PassesBody(s[2..])
    ensures PassesBody(s)
  {
    TwoSteps(PassOsc, s);
    match PassBody(s) {
      case None =>
      case Some(n) =>
        TwoSteps(PassOsc, s[..n]);
        PrefixTail(s, 2, Some(n - 2));
    }
  }

  lemma PassEscEsc(s: seq<byte>)
    requires |s| >= 2 && s[0] == s[1] == ESC && PassesBody(s[1..])
    ensures PassesBody(s)
  {
    match PassBody(s) {
      case None => EscEscStep(s);
      case Some(n) =>
        EscEscStep(s[..n]);
        PrefixTail(s, 1, Some(n - 1));
    }
  }

  /** After an ESC, another one leads to the same state as it does from PassOsc. */
  lemma EscEscStep(s: seq<byte>)
    requires |s| >= 2 && s[0] == s[1] == ESC
    ensures After(PassOsc, s) == After(PassOsc, s[1..]) && Out(PassOsc, s) == [ESC] + Out(PassOsc, s[1..])
  {
    var t := s[1..];
    assert After(PassOscEsc, t) == After(PassOscEsc, t[1..]) == After(PassOsc, t);
    assert Out(PassOscEsc, t) == [ESC] + Out(PassOscEsc, t[1..]) == Out(PassOsc, t);
  }

  lemma {:induction false} DigitsRun(p: seq<byte>, s: seq<byte>)
    requires |p| <= MAX_DIGITS
    ensures var k := Digits(s, MAX_DIGITS - |p|);
            && After(OscNum(p), s[..k]) == OscNum(p + s[..k]) && Out(OscNum(p), s[..k]) == []
            && (k < |s| && IsDigit(s[k]) ==> |p| + k == MAX_DIGITS)
    decreases |s|
  {
    var k := Digits(s, MAX_DIGITS - |p|);
    if k == 0 {
      assert p + s[..0] == p;
    } else {
      DigitsRun(p + [s[0]], s[1..]);
      assert s[..k][1..] == s[1..][..k - 1];
      assert p + s[..k] == p + [s[0]] + s[1..][..k - 1];
    }
  }

  /** What follows the parameter makes the sequence a title. */
  predicate EndsTitle(p: seq<byte>, s: seq<byte>) {
    && IsTitleParam(p) && s != []
    && (s[0] == SEMICOLON || s[0] == BEL || (|s| >= 2 && s[0] == ESC && s[1] == BACKSLASH))
  }

  ghost predicate AfterStop(p: seq<byte>, s: seq<byte>) {
    |p| <= MAX_DIGITS && (s != [] && IsDigit(s[0]) ==> |p| == MAX_DIGITS)
  }

  lemma ParamThenTerminator(p: seq<byte>, s: seq<byte>)
    requires AfterStop(p, s) && s != [] && s != [ESC] && s[0] in {BEL, ESC}
    ensures var n := AfterParam(p, s).value;
            && After(OscNum(p), s[..n]) == Normal
            && Out(OscNum(p), s[..n]) == if EndsTitle(p, s) then [] else Held(OscNum(p)) + s[..n]
  {
    if s[0] == BEL {
      assert s[..1] == [BEL];
    } else {
      assert s[..2] == [ESC, s[1]];
      TwoSteps(OscNum(p), s[..2]);
    }
  }

  lemma ParamThenTitle(p: seq<byte>, s: seq<byte>)
    requires s != [] && s[0] == SEMICOLON && IsTitleParam(p)
    ensures match AfterParam(p, s)
            case None => Out(OscNum(p), s) == [] && After(OscNum(p), s) in {DropTitle, DropEsc}
            case Some(n) => After(OscNum(p), s[..n]) == Normal && Out(OscNum(p), s[..n]) == []
  {
    TitleBodyRun(s[1..]);
    PrefixTail(s, 1, TitleBody(s[1..]));
    StepFrom(OscNum(p), s);
  }

  lemma BodyOpens(p: seq<byte>, c: byte)
    requires AfterStop(p, [c]) && c !in {BEL, ESC} && !(c == SEMICOLON && IsTitleParam(p))
    ensures Next(OscNum(p), c) == PassOsc && Emit(OscNum(p), c) == Held(OscNum(p)) + [c]
  {
    assert [c][0] == c;
  }

  lemma Regroup(h: seq<byte>, s: seq<byte>)
    requires s != []
    ensures (h + [s[0]]) + s[1..] == h + s
  {
  }

  /** One step of the parameter state, then a stretch that PassOsc passes on unchanged. */
  lemma OpenThenPass(p: seq<byte>, s: seq<byte>)
    requires s != [] && Next(OscNum(p), s[0]) == PassOsc && Emit(OscNum(p), s[0]) == Held(OscNum(p)) + [s[0]]
    requires Out(PassOsc, s[1..]) == s[1..]
    ensures Out(OscNum(p), s) == Held(OscNum(p)) + s && After(OscNum(p), s) == After(PassOsc, s[1..])
  {
    StepFrom(OscNum(p), s);
    Regroup(Held(OscNum(p)), s);
  }

  lemma ParamThenBody(p: seq<byte>, s: seq<byte>)
    requires AfterStop(p, s) && s != [] && s[0] !in {BEL, ESC} && !(s[0] == SEMICOLON && IsTitleParam(p))
    ensures match AfterParam(p, s)
            case None => Out(OscNum(p), s) == Held(OscNum(p)) + s && After(OscNum(p), s) in {PassOsc, PassOscEsc}
            case Some(n) => After(OscNum(p), s[..n]) == Normal && Out(OscNum(p), s[..n]) == Held(OscNum(p)) + s[..n]
  {
    BodyOpens(p, s[0]);
    PassBodyRun(s[1..]);
    var m := PassBody(s[1..]);
    if m.None? {
      OpenThenPass(p, s);
    } else {
      PrefixTail(s, 1, m);
      OpenThenPass(p, s[..1 + m.value]);
    }
  }

  /** The machine from the end of the parameter on. */
  lemma AfterParamRun(p: seq<byte>, s: seq<byte>)
    requires AfterStop(p, s)
    ensures match AfterParam(p, s)
            case Some(n) =>
              && After(OscNum(p), s[..n]) == Normal
              && Out(OscNum(p), s[..n]) == if EndsTitle(p, s) then [] else Held(OscNum(p)) + s[..n]
            case None =>
              if s == [] then After(OscNum(p), s) == OscNum(p) && Out(OscNum(p), s) == []
              else if s == [ESC] then After(OscNum(p), s) == OscNumEsc(p) && Out(OscNum(p), s) == []
              else
                && After(OscNum(p), s) in {DropTitle, DropEsc, PassOsc, PassOscEsc}
                && Out(OscNum(p), s) == if EndsTitle(p, s) then [] else Held(OscNum(p)) + s
  {
    if s == [] || s == [ESC] {
    } else if s[0] in {BEL, ESC} {
      ParamThenTerminator(p, s);
    } else if s[0] == SEMICOLON && IsTitleParam(p) {
      ParamThenTitle(p, s);
    } else {
      ParamThenBody(p, s);
    }
  }

  // ---------------------------------------------------------------------------------------------
  // Whole tokens
  // ---------------------------------------------------------------------------------------------

  /** An incomplete token that might still become a title: all of it is held back. */
  predicate Undecided(r: seq<byte>) {
    || r == [] || r == [ESC]
    || (|r| >= 2 && r[0] == ESC && r[1] == BRACKET &&
        var k := Digits(r[2..], MAX_DIGITS); r[2 + k..] == [] || r[2 + k..] == [ESC])
  }

  lemma OpenOsc(s: seq<byte>)
    requires |s| >= 2 && s[0] == ESC && s[1] == BRACKET
    ensures After(Normal, s) == After(OscNum([]), s[2..]) && Out(Normal, s) == Out(OscNum([]), s[2..])
  {
    TwoSteps(Normal, s);
  }

  /** The machine from the start of an OSC to the end of `s`, past a parameter of `k` digits. */
  lemma OscRun(s: seq<byte>, k: nat)
    requires 2 + k <= |s| && s[0] == ESC && s[1] == BRACKET
    requires After(OscNum([]), s[2..2 + k]) == OscNum(s[2..2 + k]) && Out(OscNum([]), s[2..2 + k]) == []
    ensures After(Normal, s) == After(OscNum(s[2..2 + k]), s[2 + k..])
    ensures Out(Normal, s) == Out(OscNum(s[2..2 + k]), s[2 + k..])
  {
    OpenOsc(s);
    SplitTail(s, k);
    PastParam(s[2..2 + k], s[2 + k..]);
  }

  lemma SplitTail(s: seq<byte>, k: nat)
    requires 2 + k <= |s|
    ensures s[2..] == s[2..2 + k] + s[2 + k..]
  {
  }

  lemma PastParam(p: seq<byte>, u: seq<byte>)
    requires After(OscNum([]), p) == OscNum(p) && Out(OscNum([]), p) == []
    ensures After(OscNum([]), p + u) == After(OscNum(p), u) && Out(OscNum([]), p + u) == Out(OscNum(p), u)
  {
    RunConcat(OscNum([]), p, u);
    assert [] + Out(OscNum(p), u) == Out(OscNum(p), u);
  }

  lemma OscParam(s: seq<byte>)
    requires |s| >= 2 && s[0] == ESC && s[1] == BRACKET
    ensures var k := Digits(s[2..], MAX_DIGITS);
            && After(OscNum([]), s[2..2 + k]) == OscNum(s[2..2 + k]) && Out(OscNum([]), s[2..2 + k]) == []
            && AfterStop(s[2..2 + k], s[2 + k..])
  {
    DigitsRun([], s[2..]);
    var k := Digits(s[2..], MAX_DIGITS);
    assert s[2..][..k] == s[2..2 + k];
  }

  /** A title is recognised by its shape alone. */
  lemma {:induction false} TitleShape(s: seq<byte>)
    requires |s| >= 2 && s[0] == ESC && s[1] == BRACKET
    ensures var k := Digits(s[2..], MAX_DIGITS);
            IsTitle(s) <==> EndsTitle(s[2..2 + k], s[2 + k..])
  {
    var t := s[2..];
    var k := Digits(t, MAX_DIGITS);
    if |t| >= 2 && IsDigit(t[0]) && !IsDigit(t[1]) {
      assert Digits(t[1..], MAX_DIGITS - 1) == 0;
      assert k == 1;
    }
    if k == 1 {
      assert s[2..3] == [s[2]];
    }
  }

  lemma TitleOfPrefix(s: seq<byte>, n: nat)
    requires n <= |s|
    ensures IsTitle(s[..n]) ==> IsTitle(s)
    ensures IsTitle(s) && n >= 4 && (s[3] == ESC ==> n >= 5) ==> IsTitle(s[..n])
  {
  }

  lemma OscPieces(s: seq<byte>, k: nat, m: nat)
    requires |s| >= 2 && s[0] == ESC && s[1] == BRACKET && 2 + k + m <= |s|
    ensures s[..2 + k + m][2..2 + k] == s[2..2 + k] && s[..2 + k + m][2 + k..] == s[2 + k..][..m]
    ensures Held(OscNum(s[2..2 + k])) + s[2 + k..][..m] == s[..2 + k + m]
  {
  }

  lemma OscTitle(s: seq<byte>, k: nat, m: nat)
    requires |s| >= 2 && s[0] == ESC && s[1] == BRACKET && k == Digits(s[2..], MAX_DIGITS)
    requires 2 + k + m <= |s| && AfterParam(s[2..2 + k], s[2 + k..]) == Some(m)
    ensures IsTitle(s[..2 + k + m]) <==> EndsTitle(s[2..2 + k], s[2 + k..])
  {
    TitleShape(s);
    TitleOfPrefix(s, 2 + k + m);
  }

  /** The machine on one complete token: a title leaves nothing, any other token itself. */
  ghost predicate FiltersToken(t: seq<byte>) {
    After(Normal, t) == Normal && Out(Normal, t) == if IsTitle(t) then [] else t
  }

  lemma OscTokenRun(s: seq<byte>, k: nat, m: nat)
    requires |s| >= 2 && s[0] == ESC && s[1] == BRACKET && k == Digits(s[2..], MAX_DIGITS)
    requires 2 + k + m <= |s| && AfterParam(s[2..2 + k], s[2 + k..]) == Some(m)
    ensures FiltersToken(s[..2 + k + m])
  {
    OscPieces(s, k, m);
    OscParam(s);
    OscRun(s[..2 + k + m], k);
    AfterParamRun(s[2..2 + k], s[2 + k..]);
    OscTitle(s, k, m);
  }

  lemma TokenRun(s: seq<byte>)
    requires FirstToken(s).Some? && !(|s| > 1 && s[0] == s[1] == ESC)
    ensures FiltersToken(s[..FirstToken(s).value])
  {
    if s[0] != ESC {
      assert s[..1] == [s[0]];
    } else if s[1] == BRACKET {
      var k := Digits(s[2..], MAX_DIGITS);
      OscTokenRun(s, k, FirstToken(s).value - 2 - k);
    } else {
      assert s[..2] == [ESC, s[1]];
      TwoSteps(Normal, s[..2]);
    }
  }

  lemma LoneEsc(s: seq<byte>)
    requires |s| > 1 && s[0] == s[1] == ESC
    ensures FirstToken(s) == Some(1) && s[..1] == [ESC]
    ensures Out(Normal, s) == [ESC] + Out(Normal, s[1..]) && After(Normal, s) == After(Normal, s[1..])
  {
    TwoSteps(Normal, s);
    StepFrom(Normal, s[1..]);
    assert s[1..][1..] == s[2..];
  }

  lemma FilterThenRun(t: seq<byte>, u: seq<byte>)
    requires FiltersToken(t)
    ensures Out(Normal, t + u) == (if IsTitle(t) then [] else t) + Out(Normal, u)
    ensures After(Normal, t + u) == After(Normal, u)
  {
    RunConcat(Normal, t, u);
  }

  lemma FilterSplit(s: seq<byte>, n: nat)
    requires n <= |s| && FiltersToken(s[..n])
    ensures Out(Normal, s) == (if IsTitle(s[..n]) then [] else s[..n]) + Out(Normal, s[n..])
    ensures After(Normal, s) == After(Normal, s[n..])
  {
    assert s[..n] + s[n..] == s;
    FilterThenRun(s[..n], s[n..]);
  }

  /** The first token is filtered; then the machine goes on as from a fresh start. */
  lemma FilterFirst(s: seq<byte>, n: nat)
    requires FirstToken(s) == Some(n)
    ensures Out(Normal, s) == (if IsTitle(s[..n]) then [] else s[..n]) + Out(Normal, s[n..])
    ensures After(Normal, s) == After(Normal, s[n..])
  {
    if |s| > 1 && s[0] == s[1] == ESC {
      LoneEsc(s);
    } else {
      TokenRun(s);
      FilterSplit(s, n);
    }
  }

  /** The incomplete rest: held back while undecided, discarded inside a title, else passed on. */
  ghost predicate FiltersRest(r: seq<byte>) {
    && Out(Normal, r) == (if Undecided(r) || IsTitle(r) then [] else r)
    && Held(After(Normal, r)) == (if Undecided(r) then r else [])
    && (After(Normal, r) == Normal <==> r == [])
  }

  lemma OscRestRun(r: seq<byte>, k: nat)
    requires |r| >= 2 && r[0] == ESC && r[1] == BRACKET && k == Digits(r[2..], MAX_DIGITS)
    requires AfterParam(r[2..2 + k], r[2 + k..]).None?
    ensures FiltersRest(r)
  {
    OscParam(r);
    OscRun(r, k);
    AfterParamRun(r[2..2 + k], r[2 + k..]);
    OscRestSplit(r, k, r[2..2 + k], r[2 + k..]);
  }

  lemma OscRestSplit(r: seq<byte>, k: nat, p: seq<byte>, u: seq<byte>)
    requires |r| >= 2 && r[0] == ESC && r[1] == BRACKET && k == Digits(r[2..], MAX_DIGITS)
    requires p == r[2..2 + k] && u == r[2 + k..]
    ensures Undecided(r) <==> u == [] || u == [ESC]
    ensures IsTitle(r) <==> EndsTitle(p, u)
    ensures Held(OscNum(p)) + u == r
    ensures u == [] ==> Held(OscNum(p)) == r
    ensures u == [ESC] ==> Held(OscNumEsc(p)) == r
    ensures !(Undecided(r) && IsTitle(r))
  {
    TitleShape(r);
    OscBytes(r, k);
  }

  lemma OscBytes(r: seq<byte>, k: nat)
    requires |r| >= 2 && r[0] == ESC && r[1] == BRACKET && 2 + k <= |r|
    ensures Held(OscNum(r[2..2 + k])) + r[2 + k..] == r
    ensures r[2 + k..] == [] ==> Held(OscNum(r[2..2 + k])) == r
    ensures r[2 + k..] == [ESC] ==> Held(OscNumEsc(r[2..2 + k])) == r
  {
  }

  lemma RestRun(r: seq<byte>)
    requires FirstToken(r).None?
    ensures FiltersRest(r)
  {
    if r != [] && r != [ESC] {
      OscRestRun(r, Digits(r[2..], MAX_DIGITS));
    }
  }

  lemma KeepCons(t: seq<byte>, rest: seq<seq<byte>>, titles: bool)
    ensures Flatten(Keep([t] + rest, titles)) == (if IsTitle(t) == titles then t else []) + Flatten(Keep(rest, titles))
  {
    assert ([t] + rest)[1..] == rest;
    if IsTitle(t) == titles {
      FlattenCons(t, Keep(rest, titles));
    } else {
      assert [] + Keep(rest, titles) == Keep(rest, titles);
    }
  }

  /**
   Over any stream the output is the concatenation of the tokens that are not titles, then the
   incomplete rest if it can no longer become a title. The machine is back in its start state
   exactly when the stream is made of complete tokens.
   */
  lemma MachineIsTokenFilter(s: seq<byte>)
    ensures Out(Normal, s) ==
            Flatten(Keep(Tokens(s), false)) + if Undecided(Rest(s)) || IsTitle(Rest(s)) then [] else Rest(s)
    ensures Held(After(Normal, s)) == if Undecided(Rest(s)) then Rest(s) else []
    ensures After(Normal, s) == Normal <==> Rest(s) == []
  {
    FilterTokens(s);
    TokensCoverInput(s);
    RestRun(Rest(s));
  }

  lemma {:induction false} FilterTokens(s: seq<byte>)
    ensures Out(Normal, s) == Flatten(Keep(Tokens(s), false)) + Out(Normal, Rest(s))
    ensures After(Normal, s) == After(Normal, Rest(s))
    decreases |s|
  {
    var f := FirstToken(s);
    if f.Some? {
      var t, u := s[..f.value], s[f.value..];
      FilterFirst(s, f.value);
      FilterTokens(u);
      KeepCons(t, Tokens(u), false);
      Associates(if IsTitle(t) then [] else t, Flatten(Keep(Tokens(u), false)), Out(Normal, Rest(u)));
    }
  }

  /** A stream of complete tokens loses exactly its titles. */
  lemma CompleteStream(s: seq<byte>)
    ensures After(Normal, s) == Normal <==> Flatten(Tokens(s)) == s
    ensures After(Normal, s) == Normal ==> Out(Normal, s) == Flatten(Keep(Tokens(s), false))
  {
    MachineIsTokenFilter(s);
    TokensCoverInput(s);
  }

  // ---------------------------------------------------------------------------------------------
  // Conservation and lag
  // ---------------------------------------------------------------------------------------------

  /** `s` is an interleaving of `a` and `b`. */
  ghost predicate Interleaves(s: seq<byte>, a: seq<byte>, b: seq<byte>)
    decreases |s|
  {
    if s == [] then a == b == []
    else || (a != [] && a[0] == s[0] && Interleaves(s[1..], a[1..], b))
         || (b != [] && b[0] == s[0] && Interleaves(s[1..], a, b[1..]))
  }

  lemma {:induction false} InterleaveLeft(t: seq<byte>, s: seq<byte>, a: seq<byte>, b: seq<byte>)
    requires Interleaves(s, a, b)
    ensures Interleaves(t + s, t + a, b)
    decreases |t|
  {
    if t == [] {
      assert t + s == s && t + a == a;
    } else {
      InterleaveLeft(t[1..], s, a, b);
      assert (t + s)[1..] == t[1..] + s && (t + a)[1..] == t[1..] + a;
    }
  }

  lemma {:induction false} InterleaveRight(t: seq<byte>, s: seq<byte>, a: seq<byte>, b: seq<byte>)
    requires Interleaves(s, a, b)
    ensures Interleaves(t + s, a, t + b)
    decreases |t|
  {
    if t == [] {
      assert t + s == s && t + b == b;
    } else {
      InterleaveRight(t[1..], s, a, b);
      assert (t + s)[1..] == t[1..] + s && (t + b)[1..] == t[1..] + b;
    }
  }

  lemma {:induction false} InterleaveNone(s: seq<byte>, a: seq<byte>)
    requires Interleaves(s, a, [])
    ensures s == a
    decreases |s|
  {
    if s != [] { InterleaveNone(s[1..], a[1..]); }
  }

  /** The bytes thrown away so far: the complete titles and the one that has begun to be dropped. */
  function Dropped(s: seq<byte>): seq<byte> {
    Flatten(Keep(Tokens(s), true)) + if IsTitle(Rest(s)) then Rest(s) else []
  }

  lemma DroppedFirst(s: seq<byte>, n: nat)
    requires FirstToken(s) == Some(n)
    ensures Dropped(s) == (if IsTitle(s[..n]) then s[..n] else []) + Dropped(s[n..])
  {
    var t, u := s[..n], s[n..];
    KeepCons(t, Tokens(u), true);
    Associates(if IsTitle(t) then t else [], Flatten(Keep(Tokens(u), true)), if IsTitle(Rest(u)) then Rest(u) else []);
  }

  lemma RestConserved(r: seq<byte>)
    requires FirstToken(r).None?
    ensures Interleaves(r, Out(Normal, r) + Held(After(Normal, r)), Dropped(r))
  {
    RestRun(r);
    InterleaveLeft(r, [], [], []);
    InterleaveRight(r, [], [], []);
    assert r + [] == r && [] + r == r;
    if IsTitle(r) { TitleDecided(r); }
    assert Keep([], true) == [];
    assert Dropped(r) == if IsTitle(r) then r else [];
  }

  lemma {:induction false} TitleDecided(r: seq<byte>)
    requires IsTitle(r) && FirstToken(r).None?
    ensures !Undecided(r)
  {
    TitleShape(r);
  }

  /**
   At every byte the input is an interleaving of what was put out, then what is held back, with
   the dropped title bytes; so before the first title nothing is lost or reordered.
   */
  lemma {:induction false} Conservation(s: seq<byte>)
    ensures Interleaves(s, Out(Normal, s) + Held(After(Normal, s)), Dropped(s))
    ensures Dropped(s) == [] <==> Out(Normal, s) + Held(After(Normal, s)) == s
    decreases |s|
  {
    Conserved(s);
    if Dropped(s) == [] {
      InterleaveNone(s, Out(Normal, s) + Held(After(Normal, s)));
    } else {
      InterleaveLengths(s, Out(Normal, s) + Held(After(Normal, s)), Dropped(s));
    }
  }

  lemma {:induction false} InterleaveLengths(s: seq<byte>, a: seq<byte>, b: seq<byte>)
    requires Interleaves(s, a, b)
    ensures |s| == |a| + |b|
    decreases |s|
  {
    if s != [] {
      if a != [] && a[0] == s[0] && Interleaves(s[1..], a[1..], b) {
        InterleaveLengths(s[1..], a[1..], b);
      } else {
        InterleaveLengths(s[1..], a, b[1..]);
      }
    }
  }

  lemma {:induction false} Conserved(s: seq<byte>)
    ensures Interleaves(s, Out(Normal, s) + Held(After(Normal, s)), Dropped(s))
    decreases |s|
  {
    var f := FirstToken(s);
    if f.None? {
      RestConserved(s);
    } else {
      Conserved(s[f.value..]);
      ConservedStep(s, f.value);
    }
  }

  lemma ConservedStep(s: seq<byte>, n: nat)
    requires FirstToken(s) == Some(n) && n <= |s|
    requires var u := s[n..]; Interleaves(u, Out(Normal, u) + Held(After(Normal, u)), Dropped(u))
    ensures Interleaves(s, Out(Normal, s) + Held(After(Normal, s)), Dropped(s))
  {
    var u := s[n..];
    FilterFirst(s, n);
    DroppedFirst(s, n);
    InterleaveFirst(s, n, IsTitle(s[..n]), Out(Normal, u), Held(After(Normal, u)), Dropped(u));
  }

  lemma InterleaveFirst(s: seq<byte>, n: nat, right: bool, o: seq<byte>, h: seq<byte>, d: seq<byte>)
    requires n <= |s| && Interleaves(s[n..], o + h, d)
    ensures var t := s[..n];
            Interleaves(s, ((if right then [] else t) + o) + h, (if right then t else []) + d)
  {
    var t := s[..n];
    assert s == t + s[n..];
    if right {
      InterleaveRight(t, s[n..], o + h, d);
      assert [] + o == o;
    } else {
      InterleaveLeft(t, s[n..], o + h, d);
      assert (t + o) + h == t + (o + h) && [] + d == d;
    }
  }

  ghost predicate ShortParam(st: State) {
    (st.OscNum? || st.OscNumEsc?) ==> |st.param| <= MAX_DIGITS
  }

  /** Never more than eleven bytes are held back: ESC ] and eight digits, and one more ESC. */
  lemma {:induction false} LagBound(st: State, s: seq<byte>)
    requires ShortParam(st)
    ensures ShortParam(After(st, s)) && |Held(After(st, s))| <= 11
    decreases |s|
  {
    if s != [] { LagBound(Next(st, s[0]), s[1..]); }
  }
}
