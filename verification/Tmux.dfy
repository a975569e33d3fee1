/** Decoding of tmux control-mode output: `\\` and `\ooo` stand for single bytes. */
module Tmux {
  import opened Base

  const BACKSLASH: byte := 0x5c

  datatype DecodeError = TrailingBackslash | InvalidEscape(index: nat)

  predicate IsOctal(c: byte) {
    0x30 <= c <= 0x37
  }

  /** Go's uint8 arithmetic on three octal digits: the first product already wraps. */
  function OctalValue(a: byte, b: byte, c: byte): byte {
    (((a - 0x30) * 64) % 0x100 + ((b - 0x30) * 8) % 0x100 + (c - 0x30)) % 0x100
  }

  // ---------------------------------------------------------------------------------------------
  // What a decodable string is made of
  // ---------------------------------------------------------------------------------------------

  /** One unit of the encoding. */
  datatype Piece =
    | Literal(c: byte)
    | Octal(a: byte, b: byte, c: byte)
    | Double

  predicate ValidPiece(p: Piece) {
    match p
    case Literal(c) => c != BACKSLASH
    case Octal(a, b, c) => IsOctal(a) && IsOctal(b) && IsOctal(c)
    case Double => true
  }

  function Text(p: Piece): seq<byte> {
    match p
    case Literal(c) => [c]
    case Octal(a, b, c) => [BACKSLASH, a, b, c]
    case Double => [BACKSLASH, BACKSLASH]
  }

  function Meaning(p: Piece): byte {
    match p
    case Literal(c) => c
    case Octal(a, b, c) => OctalValue(a, b, c)
    case Double => BACKSLASH
  }

  function Texts(ps: seq<Piece>): seq<byte> {
    if ps == [] then [] else Text(ps[0]) + Texts(ps[1..])
  }

  function Meanings(ps: seq<Piece>): seq<byte> {
    if ps == [] then [] else [Meaning(ps[0])] + Meanings(ps[1..])
  }

  ghost predicate ValidPieces(ps: seq<Piece>) {
    forall i :: 0 <= i < |ps| ==> ValidPiece(ps[i])
  }

  /** The piece that starts at index `i`, or the error the decoder reports there. */
  function PieceAt(s: seq<byte>, i: nat): (r: Result<Piece, DecodeError>)
    requires i < |s|
    ensures r.Ok? ==> ValidPiece(r.value) && i + |Text(r.value)| <= |s|
  {
    if s[i] != BACKSLASH then Ok(Literal(s[i]))
    else if i + 1 >= |s| then Err(TrailingBackslash)
    else if s[i + 1] == BACKSLASH then Ok(Double)
    else if i + 3 < |s| && IsOctal(s[i + 1]) && IsOctal(s[i + 2]) && IsOctal(s[i + 3])
      then Ok(Octal(s[i + 1], s[i + 2], s[i + 3]))
    else Err(InvalidEscape(i))
  }

  function Decode(s: seq<byte>, i: nat): Result<seq<byte>, DecodeError>
    requires i <= |s|
    decreases |s| - i
  {
    if i == |s| then Ok([])
    else match PieceAt(s, i)
      case Err(e) => Err(e)
      case Ok(p) =>
        match Decode(s, i + |Text(p)|)
        case Err(e) => Err(e)
        case Ok(rest) => Ok([Meaning(p)] + rest)
  }

  function Prepend(res: seq<byte>, r: Result<seq<byte>, DecodeError>): Result<seq<byte>, DecodeError> {
    match r case Ok(v) => Ok(res + v) case Err(e) => Err(e)
  }

  lemma DecodeStep(s: seq<byte>, i: nat, p: Piece)
    requires i < |s| && PieceAt(s, i) == Ok(p)
    ensures i + |Text(p)| <= |s| && Decode(s, i) == Prepend([Meaning(p)], Decode(s, i + |Text(p)|))
  {
  }

  lemma PrependNothing(r: Result<seq<byte>, DecodeError>)
    ensures Prepend([], r) == r
  {
    if r.Ok? { assert [] + r.value == r.value; }
  }

  lemma PrependTwice(a: seq<byte>, b: seq<byte>, r: Result<seq<byte>, DecodeError>)
    ensures Prepend(a, Prepend(b, r)) == Prepend(a + b, r)
  {
    if r.Ok? { assert a + (b + r.value) == (a + b) + r.value; }
  }

  lemma Advance(res: seq<byte>, s: seq<byte>, i: nat, p: Piece)
    requires i < |s| && PieceAt(s, i) == Ok(p)
    ensures i + |Text(p)| <= |s|
    ensures Prepend(res, Decode(s, i)) == Prepend(res + [Meaning(p)], Decode(s, i + |Text(p)|))
  {
    DecodeStep(s, i, p);
    PrependTwice(res, [Meaning(p)], Decode(s, i + |Text(p)|));
  }

  method ThreeOctal(s: seq<byte>, i: nat) returns (isOctal: bool)
    requires i + 3 < |s|
    ensures isOctal <==> IsOctal(s[i + 1]) && IsOctal(s[i + 2]) && IsOctal(s[i + 3])
  {
    for j := 1 to 4
      invariant forall c :: c in s[i + 1..i + j] ==> IsOctal(c)
    {
      if s[i + j] < 0x30 || s[i + j] > 0x37 {
        return false;
      }
      assert s[i + 1..i + j + 1] == s[i + 1..i + j] + [s[i + j]];
    }
    assert s[i + 1] == s[i + 1..i + 4][0] && s[i + 2] == s[i + 1..i + 4][1] && s[i + 3] == s[i + 1..i + 4][2];
    return true;
  }

  method DeescapeTmux(s: seq<byte>) returns (r: Result<seq<byte>, DecodeError>)
    ensures r == Decode(s, 0)
  {
    var res: seq<byte> := [];
    var i := 0;
    PrependNothing(Decode(s, 0));
    while i < |s|
      invariant i <= |s|
      invariant Decode(s, 0) == Prepend(res, Decode(s, i))
    {
      if s[i] == BACKSLASH {
        if i + 1 >= |s| {
          return Err(TrailingBackslash);
        }
        if s[i + 1] == BACKSLASH {
          Advance(res, s, i, Double);
          res := res + [BACKSLASH];
          i := i + 2;
          continue;
        }
        if i + 3 < |s| {
          var isOctal := ThreeOctal(s, i);
          if isOctal {
            Advance(res, s, i, Octal(s[i + 1], s[i + 2], s[i + 3]));
            res := res + [OctalValue(s[i + 1], s[i + 2], s[i + 3])];
            i := i + 4;
            continue;
          }
        }
        return Err(InvalidEscape(i));
      } else {
        Advance(res, s, i, Literal(s[i]));
        res := res + [s[i]];
        i := i + 1;
      }
    }
    assert res + [] == res;
    return Ok(res);
  }

  // ---------------------------------------------------------------------------------------------
  // Decoding undoes every encoding
  // ---------------------------------------------------------------------------------------------

  /** The ways tmux may write the byte `b`. */
  predicate Encodes(p: Piece, b: byte) {
    match p
    case Literal(c) => c == b != BACKSLASH
    case Octal(x, y, z) => x == 0x30 + b / 64 && y == 0x30 + b / 8 % 8 && z == 0x30 + b % 8
    case Double => b == BACKSLASH
  }

  /** Truncation of a number below 512 to a byte. */
  lemma WrapOnce(n: nat)
    requires n < 0x200
    ensures n % 0x100 == if n < 0x100 then n else n - 0x100
  {
  }

  /** Three octal digits name their byte without wrapping exactly when the first is at most 3. */
  lemma OctalDoesNotWrap(a: byte, b: byte, c: byte)
    requires IsOctal(a) && IsOctal(b) && IsOctal(c)
    ensures OctalValue(a, b, c) == ((a - 0x30) * 64 + (b - 0x30) * 8 + (c - 0x30)) % 0x100
    ensures OctalValue(a, b, c) == (a - 0x30) * 64 + (b - 0x30) * 8 + (c - 0x30) <==> a <= 0x33
  {
    var high, middle, low := (a - 0x30) * 64, (b - 0x30) * 8, c - 0x30;
    WrapOnce(high);
    WrapOnce(middle);
    WrapOnce(high % 0x100 + middle % 0x100 + low);
    WrapOnce(high + middle + low);
  }

  lemma EncodedMeaning(p: Piece, b: byte)
    requires Encodes(p, b)
    ensures ValidPiece(p) && Meaning(p) == b
  {
    if p.Octal? {
      OctalDoesNotWrap(p.a, p.b, p.c);
    }
  }

  lemma PieceStarts(s: seq<byte>, i: nat, p: Piece)
    requires i + |Text(p)| <= |s| && s[i..i + |Text(p)|] == Text(p) && ValidPiece(p)
    ensures PieceAt(s, i) == Ok(p)
  {
    var t := s[i..i + |Text(p)|];
    forall k | 0 <= k < |t| ensures s[i + k] == Text(p)[k] {
      assert t[k] == s[i + k];
    }
    assert s[i] == Text(p)[0];
    if !p.Literal? { assert s[i + 1] == Text(p)[1]; }
    if p.Octal? { assert s[i + 2] == p.b && s[i + 3] == p.c; }
  }

  lemma SplitFirst(s: seq<byte>, i: nat, t: seq<byte>, u: seq<byte>)
    requires i <= |s| && s[i..] == t + u
    ensures i + |t| <= |s| && s[i..i + |t|] == t && s[i + |t|..] == u
  {
    assert |s| - i == |t| + |u|;
    assert s[i..i + |t|] == s[i..][..|t|] && s[i + |t|..] == s[i..][|t|..];
  }

  /** Decoding from the start of valid pieces gives their meanings. */
  lemma {:induction false} DecodePieces(s: seq<byte>, i: nat, ps: seq<Piece>)
    requires i <= |s| && s[i..] == Texts(ps) && ValidPieces(ps)
    ensures Decode(s, i) == Ok(Meanings(ps))
    decreases |ps|
  {
    if ps != [] {
      var n := |Text(ps[0])|;
      SplitFirst(s, i, Text(ps[0]), Texts(ps[1..]));
      PieceStarts(s, i, ps[0]);
      DecodePieces(s, i + n, ps[1..]);
    }
  }

  lemma {:induction false} MeaningsOfEncoding(bytes: seq<byte>, ps: seq<Piece>)
    requires |ps| == |bytes| && forall i :: 0 <= i < |bytes| ==> Encodes(ps[i], bytes[i])
    ensures ValidPieces(ps) && Meanings(ps) == bytes
  {
    if ps != [] {
      EncodedMeaning(ps[0], bytes[0]);
      MeaningsOfEncoding(bytes[1..], ps[1..]);
      assert forall i :: 1 <= i < |ps| ==> ps[i] == ps[1..][i - 1];
    }
  }

  /** Round trip: whichever way each byte was written, decoding returns the bytes. */
  lemma DecodeUndoesEscaping(bytes: seq<byte>, ps: seq<Piece>)
    requires |ps| == |bytes| && forall i :: 0 <= i < |bytes| ==> Encodes(ps[i], bytes[i])
    ensures Decode(Texts(ps), 0) == Ok(bytes)
  {
    MeaningsOfEncoding(bytes, ps);
    assert Texts(ps)[0..] == Texts(ps);
    DecodePieces(Texts(ps), 0, ps);
  }

  /** What tmux writes: control characters and the backslash in octal, all else as it is. */
  function Escaped(bytes: seq<byte>): seq<byte> {
    if bytes == [] then []
    else
      var b := bytes[0];
      (if b < 0x20 || b == 0x5c then [0x5c, 0x30 + b / 64, 0x30 + b / 8 % 8, 0x30 + b % 8] else [b]) +
      Escaped(bytes[1..])
  }

  function EscapePiece(b: byte): Piece {
    if b < 0x20 || b == BACKSLASH then Octal(0x30 + b / 64, 0x30 + b / 8 % 8, 0x30 + b % 8) else Literal(b)
  }

  lemma {:induction false} EscapedPieces(bytes: seq<byte>)
    ensures Escaped(bytes) == Texts(seq(|bytes|, i requires 0 <= i < |bytes| => EscapePiece(bytes[i])))
  {
    if bytes != [] {
      EscapedPieces(bytes[1..]);
      var ps := seq(|bytes|, i requires 0 <= i < |bytes| => EscapePiece(bytes[i]));
      assert ps[1..] == seq(|bytes| - 1, i requires 0 <= i < |bytes| - 1 => EscapePiece(bytes[1..][i]));
    }
  }

  /** Whatever a program prints, decoding what tmux writes of it gives it back. */
  lemma DecodeUndoesTmux(bytes: seq<byte>)
    ensures Decode(Escaped(bytes), 0) == Ok(bytes)
  {
    EscapedPieces(bytes);
    DecodeUndoesEscaping(bytes, seq(|bytes|, i requires 0 <= i < |bytes| => EscapePiece(bytes[i])));
  }

  /** A doubled backslash is one; a lone one at the end, or before anything but three octal digits or
      another backslash, is an error at its place. */
  lemma BackslashExactly(rest: seq<byte>)
    ensures Decode([0x5c, 0x5c], 0) == Ok([0x5c])
    ensures Decode([0x5c], 0) == Err(TrailingBackslash)
    ensures rest != [] && rest[0] != 0x5c &&
            !(|rest| >= 3 && forall i :: 0 <= i < 3 ==> 0x30 <= rest[i] <= 0x37) ==>
              Decode([0x5c] + rest, 0) == Err(InvalidEscape(0))
  {
    var s := [0x5c, 0x5c];
    assert PieceAt(s, 0) == Ok(Double);
    DecodeStep(s, 0, Double);
    assert Decode(s, 2) == Ok([]);
    assert [0x5c] + [] == [0x5c];
  }

  // ---------------------------------------------------------------------------------------------
  // Exactly the strings made of valid pieces decode
  // ---------------------------------------------------------------------------------------------

  /** Where reading pieces from `i` on stops: at the end, or where no piece begins. */
  function Stop(s: seq<byte>, i: nat): (k: nat)
    requires i <= |s|
    ensures k <= |s| && (k < |s| ==> PieceAt(s, k).Err?)
    decreases |s| - i
  {
    if i == |s| || PieceAt(s, i).Err? then i else Stop(s, i + |Text(PieceAt(s, i).value)|)
  }

  lemma {:induction false} DecodeStops(s: seq<byte>, i: nat)
    requires i <= |s|
    ensures match Decode(s, i)
            case Ok(_) => Stop(s, i) == |s|
            case Err(e) => Stop(s, i) < |s| && PieceAt(s, Stop(s, i)) == Err(e)
    decreases |s| - i
  {
    if i < |s| && PieceAt(s, i).Ok? {
      DecodeStep(s, i, PieceAt(s, i).value);
      DecodeStops(s, i + |Text(PieceAt(s, i).value)|);
    }
  }

  lemma {:induction false} TextsSnoc(ps: seq<Piece>, p: Piece)
    ensures Texts(ps + [p]) == Texts(ps) + Text(p)
  {
    if ps == [] {
      assert ps + [p] == [p];
    } else {
      assert (ps + [p])[1..] == ps[1..] + [p];
      TextsSnoc(ps[1..], p);
    }
  }

  lemma PieceText(s: seq<byte>, i: nat, p: Piece)
    requires i < |s| && PieceAt(s, i) == Ok(p)
    ensures ValidPiece(p) && i + |Text(p)| <= |s| && s[..i + |Text(p)|] == s[..i] + Text(p)
  {
  }

  lemma {:induction false} PiecesUpTo(s: seq<byte>, i: nat, done: seq<Piece>) returns (ps: seq<Piece>)
    requires i <= |s| && ValidPieces(done) && Texts(done) == s[..i]
    ensures ValidPieces(ps) && Texts(ps) == s[..Stop(s, i)]
    decreases |s| - i
  {
    if i == |s| || PieceAt(s, i).Err? {
      ps := done;
    } else {
      ReadOne(s, i, done, PieceAt(s, i).value);
      ps := PiecesUpTo(s, i + |Text(PieceAt(s, i).value)|, done + [PieceAt(s, i).value]);
    }
  }

  lemma ReadOne(s: seq<byte>, i: nat, done: seq<Piece>, p: Piece)
    requires i < |s| && ValidPieces(done) && Texts(done) == s[..i] && PieceAt(s, i) == Ok(p)
    ensures i + |Text(p)| <= |s| && Texts(done + [p]) == s[..i + |Text(p)|] && ValidPieces(done + [p])
  {
    PieceText(s, i, p);
    TextsSnoc(done, p);
  }

  /**
   Decoding succeeds on exactly the concatenations of valid pieces. On any other string the error
   is that of the place where the longest readable part ends: a backslash that begins no piece.
   */
  lemma DecodesExactly(s: seq<byte>)
    ensures Decode(s, 0).Ok? <==> exists ps :: ValidPieces(ps) && Texts(ps) == s
    ensures Decode(s, 0).Err? ==>
      exists ps :: ValidPieces(ps) && var k := |Texts(ps)|;
        && k < |s| && Texts(ps) == s[..k] && s[k] == BACKSLASH
        && Decode(s, 0).error == if k + 1 == |s| then TrailingBackslash else InvalidEscape(k)
  {
    var ps := PiecesUpTo(s, 0, []);
    DecodeStops(s, 0);
    if qs :| ValidPieces(qs) && Texts(qs) == s {
      assert s[0..] == s;
      DecodePieces(s, 0, qs);
    }
  }
}
