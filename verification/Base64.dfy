/**
 Base64 with the URL-safe alphabet (section 5 of RFC 4648), as Python encodes and decodes it: the
 decoder takes both alphabets, skips every other character, and stops at padding that completes a
 group of four.
 */
module Base64 {
  import opened Basics

  type Byte = b: nat | b < 256

  function Symbol(v: nat): char
    requires v < 64
  {
    if v < 26 then 'A' + v as char
    else if v < 52 then 'a' + (v - 26) as char
    else if v < 62 then '0' + (v - 52) as char
    else if v == 62 then '-'
    else '_'
  }

  function Value(c: char): (v: Option<nat>)
    ensures v.Some? ==> v.value < 64
  {
    if 'A' <= c <= 'Z' then Some((c - 'A') as nat)
    else if 'a' <= c <= 'z' then Some((c - 'a') as nat + 26)
    else if '0' <= c <= '9' then Some((c - '0') as nat + 52)
    else if c == '-' || c == '+' then Some(62)
    else if c == '_' || c == '/' then Some(63)
    else None
  }

  lemma SymbolHasValue(v: nat)
    requires v < 64
    ensures Value(Symbol(v)) == Some(v) && Symbol(v) != '='
  {
  }

  function Encode(b: seq<Byte>): string {
    if |b| == 0 then ""
    else if |b| == 1 then [Symbol(b[0] / 4), Symbol(b[0] % 4 * 16), '=', '=']
    else if |b| == 2 then [Symbol(b[0] / 4), Symbol(b[0] % 4 * 16 + b[1] / 16), Symbol(b[1] % 16 * 4), '=']
    else [Symbol(b[0] / 4), Symbol(b[0] % 4 * 16 + b[1] / 16), Symbol(b[1] % 16 * 4 + b[2] / 64), Symbol(b[2] % 64)]
         + Encode(b[3..])
  }

  /** Where the decoder is in a group of four, the bits it holds over, and the padding it has seen. */
  datatype Place = Place(quad: nat, left: nat, pads: nat)

  const Fresh := Place(0, 0, 0)

  predicate PlaceOk(p: Place) {
    match p.quad
    case 0 => true
    case 1 => p.left < 64
    case 2 => p.left < 16
    case 3 => p.left < 4
    case _ => false
  }

  /** The bytes that the symbol with value `v` completes. */
  function Completed(p: Place, v: nat): seq<Byte>
    requires PlaceOk(p) && v < 64
  {
    match p.quad
    case 0 => []
    case 1 => [p.left * 4 + v / 16]
    case 2 => [p.left * 16 + v / 4]
    case _ => [p.left * 64 + v]
  }

  function After(p: Place, v: nat): (p': Place)
    requires PlaceOk(p) && v < 64
    ensures PlaceOk(p')
  {
    match p.quad
    case 0 => Place(1, v, 0)
    case 1 => Place(2, v % 16, 0)
    case 2 => Place(3, v % 4, 0)
    case _ => Fresh
  }

  function Cons(prefix: seq<Byte>, rest: Option<seq<Byte>>): Option<seq<Byte>> {
    if rest.None? then None else Some(prefix + rest.value)
  }

  /** Decodes what follows position `k`; None stands for an incomplete last group. */
  function DecodeFrom(s: string, k: nat, p: Place): Option<seq<Byte>>
    requires k <= |s| && PlaceOk(p)
    decreases |s| - k
  {
    if k == |s| then if p.quad == 0 then Some([]) else None
    else if s[k] == '=' then
      if p.quad >= 2 && p.quad + p.pads + 1 >= 4 then Some([])
      else DecodeFrom(s, k + 1, if p.quad >= 2 then p.(pads := p.pads + 1) else p)
    else
      match Value(s[k])
      case None => DecodeFrom(s, k + 1, p)
      case Some(v) => Cons(Completed(p, v), DecodeFrom(s, k + 1, After(p, v)))
  }

  function Decode(s: string): Option<seq<Byte>> {
    DecodeFrom(s, 0, Fresh)
  }

  predicate At(s: string, k: nat, v: nat) {
    v < 64 && k < |s| && s[k] == Symbol(v)
  }

  lemma DecodeSymbol(s: string, k: nat, v: nat, p: Place)
    requires PlaceOk(p) && At(s, k, v)
    ensures DecodeFrom(s, k, p) == Cons(Completed(p, v), DecodeFrom(s, k + 1, After(p, v)))
  {
    SymbolHasValue(v);
  }

  lemma Join(a: seq<Byte>, b: seq<Byte>, x: Option<seq<Byte>>, y: Option<seq<Byte>>, z: Option<seq<Byte>>)
    requires x == Cons(a, y) && y == Cons(b, z)
    ensures x == Cons(a + b, z)
  {
    if z.Some? {
      assert a + (b + z.value) == (a + b) + z.value;
    }
  }

  // ---------- The bits of a byte come back from the two symbols that carry them ----------

  lemma FirstByte(a: Byte, high: nat)
    requires high < 16
    ensures Completed(Place(1, a / 4, 0), a % 4 * 16 + high) == [a]
    ensures After(Place(1, a / 4, 0), a % 4 * 16 + high) == Place(2, high, 0)
  {
  }

  lemma SecondByte(b: Byte, high: nat)
    requires high < 4
    ensures Completed(Place(2, b / 16, 0), b % 16 * 4 + high) == [b]
    ensures After(Place(2, b / 16, 0), b % 16 * 4 + high) == Place(3, high, 0)
  {
  }

  lemma ThirdByte(c: Byte)
    ensures Completed(Place(3, c / 64, 0), c % 64) == [c]
  {
  }

  /** Two symbols that complete one byte. */
  lemma DecodeFirst(s: string, k: nat, v: nat, w: nat, a: Byte, high: nat)
    requires At(s, k, v) && At(s, k + 1, w)
    requires Completed(Place(1, v, 0), w) == [a] && After(Place(1, v, 0), w) == Place(2, high, 0)
    ensures DecodeFrom(s, k, Fresh) == Cons([a], DecodeFrom(s, k + 2, Place(2, high, 0)))
  {
    DecodeSymbol(s, k, v, Fresh);
    DecodeSymbol(s, k + 1, w, Place(1, v, 0));
    Join([], [a], DecodeFrom(s, k, Fresh), DecodeFrom(s, k + 1, Place(1, v, 0)),
         DecodeFrom(s, k + 2, Place(2, high, 0)));
    assert [] + [a] == [a];
  }

  /** Three symbols that complete two bytes. */
  lemma DecodeSecond(s: string, k: nat, v: nat, w: nat, x: nat, a: Byte, b: Byte, high: nat, low: nat)
    requires At(s, k, v) && At(s, k + 1, w) && At(s, k + 2, x)
    requires Completed(Place(1, v, 0), w) == [a] && After(Place(1, v, 0), w) == Place(2, high, 0)
    requires Completed(Place(2, high, 0), x) == [b] && After(Place(2, high, 0), x) == Place(3, low, 0)
    ensures DecodeFrom(s, k, Fresh) == Cons([a, b], DecodeFrom(s, k + 3, Place(3, low, 0)))
  {
    DecodeFirst(s, k, v, w, a, high);
    DecodeSymbol(s, k + 2, x, Place(2, high, 0));
    Join([a], [b], DecodeFrom(s, k, Fresh), DecodeFrom(s, k + 2, Place(2, high, 0)),
         DecodeFrom(s, k + 3, Place(3, low, 0)));
    assert [a] + [b] == [a, b];
  }

  /** Four symbols that complete three bytes. */
  lemma DecodeThird(
      s: string, k: nat, v: nat, w: nat, x: nat, y: nat, a: Byte, b: Byte, c: Byte, high: nat, low: nat)
    requires At(s, k, v) && At(s, k + 1, w) && At(s, k + 2, x) && At(s, k + 3, y)
    requires Completed(Place(1, v, 0), w) == [a] && After(Place(1, v, 0), w) == Place(2, high, 0)
    requires Completed(Place(2, high, 0), x) == [b] && After(Place(2, high, 0), x) == Place(3, low, 0)
    requires Completed(Place(3, low, 0), y) == [c]
    ensures DecodeFrom(s, k, Fresh) == Cons([a, b, c], DecodeFrom(s, k + 4, Fresh))
  {
    DecodeSecond(s, k, v, w, x, a, b, high, low);
    DecodeSymbol(s, k + 3, y, Place(3, low, 0));
    Join([a, b], [c], DecodeFrom(s, k, Fresh), DecodeFrom(s, k + 3, Place(3, low, 0)), DecodeFrom(s, k + 4, Fresh));
    assert [a, b] + [c] == [a, b, c];
  }

  lemma DecodeOneByte(s: string, k: nat, b: seq<Byte>)
    requires |b| == 1 && k <= |s| && s[k..] == Encode(b)
    ensures DecodeFrom(s, k, Fresh) == Some(b)
  {
    assert forall j :: 0 <= j < 4 ==> s[k + j] == Encode(b)[j];
    assert s[k + 0] == Symbol(b[0] / 4) && s[k + 1] == Symbol(b[0] % 4 * 16) && s[k + 2] == '=' && s[k + 3] == '=';
    FirstByte(b[0], 0);
    DecodeFirst(s, k, b[0] / 4, b[0] % 4 * 16, b[0], 0);
    assert DecodeFrom(s, k + 3, Place(2, 0, 1)) == Some([]);
    assert [b[0]] + [] == b;
  }

  lemma DecodeTwoBytes(s: string, k: nat, b: seq<Byte>)
    requires |b| == 2 && k <= |s| && s[k..] == Encode(b)
    ensures DecodeFrom(s, k, Fresh) == Some(b)
  {
    assert forall j :: 0 <= j < 4 ==> s[k + j] == Encode(b)[j];
    assert s[k + 0] == Symbol(b[0] / 4) && s[k + 1] == Symbol(b[0] % 4 * 16 + b[1] / 16);
    assert s[k + 2] == Symbol(b[1] % 16 * 4) && s[k + 3] == '=';
    FirstByte(b[0], b[1] / 16);
    SecondByte(b[1], 0);
    DecodeSecond(s, k, b[0] / 4, b[0] % 4 * 16 + b[1] / 16, b[1] % 16 * 4, b[0], b[1], b[1] / 16, 0);
    assert [b[0], b[1]] + [] == b;
  }

  lemma EncodedGroup(s: string, k: nat, b: seq<Byte>)
    requires |b| > 2 && k <= |s| && s[k..] == Encode(b)
    ensures At(s, k, b[0] / 4) && At(s, k + 1, b[0] % 4 * 16 + b[1] / 16)
    ensures At(s, k + 2, b[1] % 16 * 4 + b[2] / 64) && At(s, k + 3, b[2] % 64)
    ensures s[k + 4..] == Encode(b[3..])
  {
    assert forall j :: 0 <= j < 4 ==> s[k + j] == Encode(b)[j];
    assert s[k + 0] == Symbol(b[0] / 4) && s[k + 1] == Symbol(b[0] % 4 * 16 + b[1] / 16);
    assert s[k + 2] == Symbol(b[1] % 16 * 4 + b[2] / 64) && s[k + 3] == Symbol(b[2] % 64);
    assert s[k + 4..] == s[k..][4..];
  }

  /** A whole group, and the three bytes it stands for. */
  lemma DecodeGroup(s: string, k: nat, a: Byte, b: Byte, c: Byte)
    requires At(s, k, a / 4) && At(s, k + 1, a % 4 * 16 + b / 16)
    requires At(s, k + 2, b % 16 * 4 + c / 64) && At(s, k + 3, c % 64)
    ensures DecodeFrom(s, k, Fresh) == Cons([a, b, c], DecodeFrom(s, k + 4, Fresh))
  {
    FirstByte(a, b / 16);
    SecondByte(b, c / 64);
    ThirdByte(c);
    DecodeThird(s, k, a / 4, a % 4 * 16 + b / 16, b % 16 * 4 + c / 64, c % 64, a, b, c, b / 16, c / 64);
  }

  lemma {:induction false} DecodeSuffix(s: string, k: nat, b: seq<Byte>)
    requires k <= |s| && s[k..] == Encode(b)
    ensures DecodeFrom(s, k, Fresh) == Some(b)
    decreases |b|
  {
    if |b| == 1 {
      DecodeOneByte(s, k, b);
    } else if |b| == 2 {
      DecodeTwoBytes(s, k, b);
    } else if |b| > 2 {
      EncodedGroup(s, k, b);
      DecodeGroup(s, k, b[0], b[1], b[2]);
      DecodeSuffix(s, k + 4, b[3..]);
      assert b == [b[0], b[1], b[2]] + b[3..];
    }
  }

  /** Every sequence of bytes comes back from its encoding. */
  lemma DecodeEncode(b: seq<Byte>)
    ensures Decode(Encode(b)) == Some(b)
  {
    DecodeSuffix(Encode(b), 0, b);
  }

  function Group(a: Byte, b: Byte, c: Byte): string {
    [Symbol(a / 4), Symbol(a % 4 * 16 + b / 16), Symbol(b % 16 * 4 + c / 64), Symbol(c % 64)]
  }

  lemma EncodeGroup(a: Byte, b: Byte, c: Byte, rest: seq<Byte>)
    ensures Encode([a, b, c] + rest) == Group(a, b, c) + Encode(rest)
  {
    assert ([a, b, c] + rest)[3..] == rest;
  }

  lemma EncodeSix(a: Byte, b: Byte, c: Byte, d: Byte, e: Byte, f: Byte)
    ensures Encode([a, b, c] + [d, e, f]) == Group(a, b, c) + Group(d, e, f)
  {
    EncodeGroup(a, b, c, [d, e, f]);
    EncodeGroup(d, e, f, []);
    assert [d, e, f] + [] == [d, e, f];
    assert Group(d, e, f) + Encode([]) == Group(d, e, f);
  }
}
