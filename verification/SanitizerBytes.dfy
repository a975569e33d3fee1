/**
 The title filter in plain bytes: which sequences vanish and which come out, spelled out without the
 names of the machine or the grammar. ESC is 1b, BEL is 07, ESC ] is 1b 5d, ESC \ is 1b 5c.
 */
module SanitizerBytes {
  import opened Base
  import opened SanitizerSpec

  /** All of `s` comes out, and the machine is back at its start. */
  ghost predicate Passes(s: seq<byte>) {
    Out(Normal, s) == s && After(Normal, s) == Normal
  }

  /** Nothing of `s` comes out, and the machine is back at its start. */
  ghost predicate Vanishes(s: seq<byte>) {
    Out(Normal, s) == [] && After(Normal, s) == Normal
  }

  /** Bytes other than BEL and ESC. */
  ghost predicate Plain(body: seq<byte>) {
    0x07 !in body && 0x1b !in body
  }

  lemma Two(st: State, a: byte, b: byte)
    ensures Out(st, [a, b]) == Emit(st, a) + Emit(Next(st, a), b)
    ensures After(st, [a, b]) == Next(Next(st, a), b)
  {
    StepFrom(st, [a, b]);
    assert [a, b][1..] == [b] && [b][1..] == [];
    StepFrom(Next(st, a), [b]);
    assert Out(Next(Next(st, a), b), []) == [];
  }

  lemma Four(st: State, a: byte, b: byte, c: byte, d: byte)
    ensures var u := Next(Next(st, a), b);
            && Out(st, [a, b, c, d]) == (Emit(st, a) + Emit(Next(st, a), b)) + (Emit(u, c) + Emit(Next(u, c), d))
            && After(st, [a, b, c, d]) == Next(Next(u, c), d)
  {
    assert [a, b] + [c, d] == [a, b, c, d];
    RunConcat(st, [a, b], [c, d]);
    Two(st, a, b);
    Two(After(st, [a, b]), c, d);
  }

  lemma One(st: State, a: byte)
    ensures Out(st, [a]) == Emit(st, a) && After(st, [a]) == Next(st, a)
  {
    StepFrom(st, [a]);
    assert [a][1..] == [];
  }

  lemma {:induction false} PlainTitleBody(body: seq<byte>)
    requires Plain(body)
    ensures Out(DropTitle, body) == [] && After(DropTitle, body) == DropTitle
  {
    if body != [] { PlainTitleBody(body[1..]); }
  }

  lemma {:induction false} PlainOtherBody(body: seq<byte>)
    requires Plain(body)
    ensures Out(PassOsc, body) == body && After(PassOsc, body) == PassOsc
  {
    if body != [] { PlainOtherBody(body[1..]); }
  }

  lemma InThree(st: State, a: seq<byte>, b: seq<byte>, c: seq<byte>)
    ensures Out(st, a + (b + c)) ==
            Out(st, a) + (Out(After(st, a), b) + Out(After(After(st, a), b), c))
    ensures After(st, a + (b + c)) == After(After(After(st, a), b), c)
  {
    RunConcat(st, a, b + c);
    RunConcat(After(st, a), b, c);
  }

  /** A title, OSC 0, 1 or 2 with any plain text, vanishes with either terminator; so does one without text. */
  lemma TitlesVanish(d: byte, body: seq<byte>)
    requires 0x30 <= d <= 0x32 && Plain(body)
    ensures Vanishes([0x1b, 0x5d, d, 0x3b] + (body + [0x07]))
    ensures Vanishes([0x1b, 0x5d, d, 0x3b] + (body + [0x1b, 0x5c]))
    ensures Vanishes([0x1b, 0x5d, d, 0x07])
    ensures Vanishes([0x1b, 0x5d, d] + [0x1b, 0x5c])
  {
    Four(Normal, 0x1b, 0x5d, d, 0x3b);
    Four(Normal, 0x1b, 0x5d, d, 0x07);
    PlainTitleBody(body);
    InThree(Normal, [0x1b, 0x5d, d, 0x3b], body, [0x07]);
    One(DropTitle, 0x07);
    InThree(Normal, [0x1b, 0x5d, d, 0x3b], body, [0x1b, 0x5c]);
    Two(DropTitle, 0x1b, 0x5c);
    BareTitle(d);
  }

  lemma BareTitle(d: byte)
    requires 0x30 <= d <= 0x32
    ensures Vanishes([0x1b, 0x5d, d] + [0x1b, 0x5c])
  {
    assert [0x1b, 0x5d, d] + [0x1b, 0x5c] == [0x1b, 0x5d] + ([d] + [0x1b, 0x5c]);
    InThree(Normal, [0x1b, 0x5d], [d], [0x1b, 0x5c]);
    Two(Normal, 0x1b, 0x5d);
    One(OscNum([]), d);
    assert [] + [d] == [d];
    Two(OscNum([d]), 0x1b, 0x5c);
  }

  lemma OtherCommandOpens(d: byte)
    requires d != 0x07 && d != 0x1b && !(0x30 <= d <= 0x32)
    ensures Out(Normal, [0x1b, 0x5d, d, 0x3b]) == [0x1b, 0x5d, d, 0x3b]
    ensures After(Normal, [0x1b, 0x5d, d, 0x3b]) == PassOsc
  {
    Four(Normal, 0x1b, 0x5d, d, 0x3b);
    assert [] + [d] == [d];
  }

  /** Any other operating system command passes, with another digit or none. */
  lemma OtherCommandsPass(d: byte, body: seq<byte>)
    requires d != 0x07 && d != 0x1b && !(0x30 <= d <= 0x32) && Plain(body)
    ensures Passes([0x1b, 0x5d, d, 0x3b] + (body + [0x07]))
    ensures Passes([0x1b, 0x5d, d, 0x3b] + (body + [0x1b, 0x5c]))
  {
    OtherCommandOpens(d);
    PlainOtherBody(body);
    InThree(Normal, [0x1b, 0x5d, d, 0x3b], body, [0x07]);
    One(PassOsc, 0x07);
    InThree(Normal, [0x1b, 0x5d, d, 0x3b], body, [0x1b, 0x5c]);
    Two(PassOsc, 0x1b, 0x5c);
  }

  /** Two digits are no title, whatever they are. */
  lemma TwoDigitsPass(d: byte, e: byte, body: seq<byte>)
    requires 0x30 <= d <= 0x39 && 0x30 <= e <= 0x39 && Plain(body)
    ensures Passes([0x1b, 0x5d, d, e] + ([0x3b] + (body + [0x07])))
  {
    TwoDigitsHeld(d, e);
    AfterTwoDigits(d, e, body);
    RunConcat(Normal, [0x1b, 0x5d, d, e], [0x3b] + (body + [0x07]));
    var all := [0x1b, 0x5d, d, e] + ([0x3b] + (body + [0x07]));
    assert [] + all == all;
  }

  lemma TwoDigitsHeld(d: byte, e: byte)
    requires 0x30 <= d <= 0x39 && 0x30 <= e <= 0x39
    ensures Out(Normal, [0x1b, 0x5d, d, e]) == [] && After(Normal, [0x1b, 0x5d, d, e]) == OscNum([d, e])
  {
    Four(Normal, 0x1b, 0x5d, d, e);
    assert [] + [d] == [d] && [d] + [e] == [d, e];
  }

  lemma TwoDigitsOpen(d: byte, e: byte)
    ensures Out(OscNum([d, e]), [0x3b]) == [0x1b, 0x5d, d, e] + [0x3b] && After(OscNum([d, e]), [0x3b]) == PassOsc
  {
    One(OscNum([d, e]), 0x3b);
    assert [0x1b, 0x5d] + [d, e] == [0x1b, 0x5d, d, e];
  }

  lemma BodyAndBell(body: seq<byte>)
    requires Plain(body)
    ensures Out(PassOsc, body + [0x07]) == body + [0x07] && After(PassOsc, body + [0x07]) == Normal
  {
    PlainOtherBody(body);
    RunConcat(PassOsc, body, [0x07]);
    One(PassOsc, 0x07);
  }

  lemma AfterTwoDigits(d: byte, e: byte, body: seq<byte>)
    requires 0x30 <= d <= 0x39 && 0x30 <= e <= 0x39 && Plain(body)
    ensures Out(OscNum([d, e]), [0x3b] + (body + [0x07])) == [0x1b, 0x5d, d, e] + ([0x3b] + (body + [0x07]))
    ensures After(OscNum([d, e]), [0x3b] + (body + [0x07])) == Normal
  {
    TwoDigitsOpen(d, e);
    BodyAndBell(body);
    RunConcat(OscNum([d, e]), [0x3b], body + [0x07]);
    Associates([0x1b, 0x5d, d, e], [0x3b], body + [0x07]);
  }

  /** Every other escape, ESC [ among them, passes, and what follows is read afresh. */
  lemma OtherEscapesPass(c: byte)
    requires c != 0x5d && c != 0x1b
    ensures Passes([0x1b, c])
  {
    Two(Normal, 0x1b, c);
  }

  /** A title broken off after its digit by an escape of another kind passes with that escape. */
  lemma BrokenTitlePasses(d: byte, c: byte)
    requires 0x30 <= d <= 0x32 && c != 0x5c
    ensures Passes([0x1b, 0x5d, d] + [0x1b, c])
  {
    assert [0x1b, 0x5d, d] + [0x1b, c] == [0x1b, 0x5d] + ([d] + [0x1b, c]);
    InThree(Normal, [0x1b, 0x5d], [d], [0x1b, c]);
    Two(Normal, 0x1b, 0x5d);
    One(OscNum([]), d);
    assert [] + [d] == [d];
    Two(OscNum([d]), 0x1b, c);
    assert [0x1b, 0x5d] + [d] + [0x1b] + [c] == [0x1b, 0x5d, d] + [0x1b, c];
  }

  /** Text without ESC passes, BEL included. */
  lemma TextPasses(s: seq<byte>)
    requires 0x1b !in s
    ensures Passes(s)
  {
    CleanRun(s);
  }

  /** Up to eight digits are held back until it is known what they number; the ninth lets all go. */
  lemma NineDigitsPass(digits: seq<byte>, d: byte)
    requires |digits| == 8 && (forall i :: 0 <= i < 8 ==> 0x30 <= digits[i] <= 0x39) && 0x30 <= d <= 0x39
    ensures Out(Normal, [0x1b, 0x5d] + digits) == []
    ensures Out(Normal, ([0x1b, 0x5d] + digits) + [d]) == ([0x1b, 0x5d] + digits) + [d]
  {
    Two(Normal, 0x1b, 0x5d);
    DigitsHeld([], digits);
    RunConcat(Normal, [0x1b, 0x5d], digits);
    assert [] + digits == digits;
    RunConcat(Normal, [0x1b, 0x5d] + digits, [d]);
    One(OscNum(digits), d);
    assert [] + (([0x1b, 0x5d] + digits) + [d]) == ([0x1b, 0x5d] + digits) + [d];
  }

  lemma DigitHeld(p: seq<byte>, d: byte)
    requires |p| < 8 && 0x30 <= d <= 0x39
    ensures Next(OscNum(p), d) == OscNum(p + [d]) && Emit(OscNum(p), d) == []
  {
  }

  lemma {:induction false} DigitsHeld(p: seq<byte>, digits: seq<byte>)
    requires |p| + |digits| <= 8 && forall i :: 0 <= i < |digits| ==> 0x30 <= digits[i] <= 0x39
    ensures Out(OscNum(p), digits) == [] && After(OscNum(p), digits) == OscNum(p + digits)
    decreases |digits|
  {
    if digits == [] {
      assert p + [] == p;
    } else {
      var d, rest := digits[0], digits[1..];
      DigitHeld(p, d);
      StepFrom(OscNum(p), digits);
      DigitsHeld(p + [d], rest);
      assert digits == [d] + rest;
      Associates(p, [d], rest);
    }
  }
}
