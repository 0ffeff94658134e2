/** Base 64 encoding as section 4 of RFC 4648 defines it (the standard alphabet, `=` padding),
    decoded strictly, the way `Data(base64Encoded:)` does with no options. */
module Base64 {
  import opened Wrappers

  type Byte = b: int | 0 <= b < 256
  type Sextet = n: int | 0 <= n < 64

  /** Table 1 of RFC 4648: the character that encodes a 6-bit value. */
  function CharOf(n: Sextet): char
  {
    if n < 26 then ('A' as int + n) as char
    else if n < 52 then ('a' as int + (n - 26)) as char
    else if n < 62 then ('0' as int + (n - 52)) as char
    else if n == 62 then '+'
    else '/'
  }

  /** The 6-bit value a character encodes, if it belongs to the alphabet. */
  function SextetOf(c: char): Option<Sextet>
  {
    if 'A' <= c <= 'Z' then Some(c as int - 'A' as int)
    else if 'a' <= c <= 'z' then Some(c as int - 'a' as int + 26)
    else if '0' <= c <= '9' then Some(c as int - '0' as int + 52)
    else if c == '+' then Some(62)
    else if c == '/' then Some(63)
    else None
  }

  predicate InAlphabet(c: char)
  {
    SextetOf(c).Some?
  }

  /** The four characters of a full 24-bit group. */
  function EncodeGroup(b0: Byte, b1: Byte, b2: Byte): string
  {
    [CharOf(b0 / 4), CharOf((b0 % 4) * 16 + b1 / 16), CharOf((b1 % 16) * 4 + b2 / 64), CharOf(b2 % 64)]
  }

  /** The encoding without its `=` padding: full groups, then 2 or 3 characters for a final 1 or 2 bytes. */
  function EncodeUnpadded(b: seq<Byte>): string
    decreases |b|
  {
    if |b| == 0 then ""
    else if |b| == 1 then [CharOf(b[0] / 4), CharOf((b[0] % 4) * 16)]
    else if |b| == 2 then [CharOf(b[0] / 4), CharOf((b[0] % 4) * 16 + b[1] / 16), CharOf((b[1] % 16) * 4)]
    else EncodeGroup(b[0], b[1], b[2]) + EncodeUnpadded(b[3..])
  }

  /** `n` padding characters. */
  function Padding(n: nat): (r: string)
    ensures |r| == n && forall i :: 0 <= i < n ==> r[i] == '='
  {
    seq(n, i => '=')
  }

  /** Base 64 encoding: the final quantum is padded with `=` to four characters. */
  function Encode(b: seq<Byte>): string
  {
    EncodeUnpadded(b) + Padding(PadLength(|b|))
  }

  /** How many `=` the final quantum of `n` bytes needs. */
  function PadLength(n: nat): (k: nat)
    ensures k <= 2
  {
    (3 - n % 3) % 3
  }

  /** The bytes a quantum's sextets `a b c d` carry: 6+2 bits, 4+4 bits, 2+6 bits. */
  function FirstByte(a: Sextet, b: Sextet): Byte
  {
    (a as int) * 4 + (b as int) / 16
  }

  function SecondByte(b: Sextet, c: Sextet): Byte
  {
    ((b as int) % 16) * 16 + (c as int) / 4
  }

  function ThirdByte(c: Sextet, d: Sextet): Byte
  {
    ((c as int) % 4) * 64 + (d as int)
  }

  /** A quantum of four alphabet characters: three bytes. */
  function DecodeFull(c0: char, c1: char, c2: char, c3: char): Option<seq<Byte>>
  {
    match (SextetOf(c0), SextetOf(c1), SextetOf(c2), SextetOf(c3))
    case (Some(a), Some(b), Some(c), Some(d)) => Some([FirstByte(a, b), SecondByte(b, c), ThirdByte(c, d)])
    case _ => None
  }

  /** The final quantum, which may end in `==` (one byte) or `=` (two bytes). */
  function DecodeFinal(c0: char, c1: char, c2: char, c3: char): Option<seq<Byte>>
  {
    if c2 == '=' && c3 == '=' then
      match (SextetOf(c0), SextetOf(c1))
      case (Some(a), Some(b)) => Some([FirstByte(a, b)])
      case _ => None
    else if c3 == '=' then
      match (SextetOf(c0), SextetOf(c1), SextetOf(c2))
      case (Some(a), Some(b), Some(c)) => Some([FirstByte(a, b), SecondByte(b, c)])
      case _ => None
    else DecodeFull(c0, c1, c2, c3)
  }

  /** Quanta of four characters, the last of which may be padded; a shorter remainder fails. */
  function DecodeQuanta(s: string): Option<seq<Byte>>
    decreases |s|
  {
    if |s| < 4 then (if s == [] then Some([]) else None)
    else if |s| == 4 then DecodeFinal(s[0], s[1], s[2], s[3])
    else
      match DecodeFull(s[0], s[1], s[2], s[3])
      case None => None
      case Some(q) =>
        match DecodeQuanta(s[4..])
        case None => None
        case Some(rest) => Some(q + rest)
  }

  /** Decoding: the length must be a multiple of four, every character must be in the alphabet,
      and `=` may appear only as the padding of the last quantum. */
  function Decode(s: string): Option<seq<Byte>>
  {
    if |s| % 4 != 0 then None else DecodeQuanta(s)
  }

  // ---------------------------------------------------------------------------
  // Lemmas

  lemma SextetOfCharOf(n: Sextet)
    ensures SextetOf(CharOf(n)) == Some(n)
  {
  }

  /** The padding character and the URL-safe and JWS separator characters are not in the alphabet. */
  lemma OutsideAlphabet()
    ensures !InAlphabet('=') && !InAlphabet('-') && !InAlphabet('_') && !InAlphabet('.')
  {
  }

  /** Every character of an encoding without its padding is in the alphabet. */
  lemma {:induction false} EncodedInAlphabet(b: seq<Byte>)
    ensures forall i :: 0 <= i < |EncodeUnpadded(b)| ==> InAlphabet(EncodeUnpadded(b)[i])
    decreases |b|
  {
    if |b| == 1 {
      SextetOfCharOf(b[0] / 4);
      SextetOfCharOf((b[0] % 4) * 16);
    } else if |b| == 2 {
      SextetOfCharOf(b[0] / 4);
      SextetOfCharOf((b[0] % 4) * 16 + b[1] / 16);
      SextetOfCharOf((b[1] % 16) * 4);
    } else if |b| >= 3 {
      var g, u := EncodeGroup(b[0], b[1], b[2]), EncodeUnpadded(b[3..]);
      SextetOfCharOf(b[0] / 4);
      SextetOfCharOf((b[0] % 4) * 16 + b[1] / 16);
      SextetOfCharOf((b[1] % 16) * 4 + b[2] / 64);
      SextetOfCharOf(b[2] % 64);
      EncodedInAlphabet(b[3..]);
      assert EncodeUnpadded(b) == g + u;
      forall i | 0 <= i < |g + u|
        ensures InAlphabet((g + u)[i])
      {
        if i >= 4 {
          assert (g + u)[i] == u[i - 4];
        }
      }
    }
  }

  lemma SplitFirstByte(b0: Byte, b1: Byte)
    ensures FirstByte(b0 / 4, (b0 % 4) * 16 + b1 / 16) == b0
  {
    var b := (b0 % 4) * 16 + b1 / 16;
    assert b / 16 == b0 % 4;
  }

  lemma SplitSecondByte(b0: Byte, b1: Byte, b2: Byte)
    ensures SecondByte((b0 % 4) * 16 + b1 / 16, (b1 % 16) * 4 + b2 / 64) == b1
  {
    var b, c := (b0 % 4) * 16 + b1 / 16, (b1 % 16) * 4 + b2 / 64;
    assert b % 16 == b1 / 16;
    assert c / 4 == b1 % 16;
  }

  lemma SplitThirdByte(b1: Byte, b2: Byte)
    ensures ThirdByte((b1 % 16) * 4 + b2 / 64, b2 % 64) == b2
  {
    var c := (b1 % 16) * 4 + b2 / 64;
    assert c % 4 == b2 / 64;
  }

  lemma DecodeGroup(b0: Byte, b1: Byte, b2: Byte)
    ensures var g := EncodeGroup(b0, b1, b2); DecodeFull(g[0], g[1], g[2], g[3]) == Some([b0, b1, b2])
  {
    var a, b, c, d := b0 / 4, (b0 % 4) * 16 + b1 / 16, (b1 % 16) * 4 + b2 / 64, b2 % 64;
    SextetOfCharOf(a);
    SextetOfCharOf(b);
    SextetOfCharOf(c);
    SextetOfCharOf(d);
    SplitFirstByte(b0, b1);
    SplitSecondByte(b0, b1, b2);
    SplitThirdByte(b1, b2);
  }

  lemma DecodeOneByte(b0: Byte)
    ensures DecodeFinal(CharOf(b0 / 4), CharOf((b0 % 4) * 16), '=', '=') == Some([b0])
  {
    SextetOfCharOf(b0 / 4);
    SextetOfCharOf((b0 % 4) * 16);
  }

  lemma DecodeTwoBytes(b0: Byte, b1: Byte)
    ensures DecodeFinal(CharOf(b0 / 4), CharOf((b0 % 4) * 16 + b1 / 16), CharOf((b1 % 16) * 4), '=') == Some([b0, b1])
  {
    var a, b, c := b0 / 4, (b0 % 4) * 16 + b1 / 16, (b1 % 16) * 4;
    SextetOfCharOf(a);
    SextetOfCharOf(b);
    SextetOfCharOf(c);
    SplitFirstByte(b0, b1);
    SplitSecondByte(b0, b1, 0);
    assert CharOf(c) != '=' by { OutsideAlphabet(); }
  }

  lemma {:induction false} EncodedQuanta(b: seq<Byte>)
    ensures |Encode(b)| % 4 == 0
    ensures |b| > 0 ==> |Encode(b)| >= 4
    decreases |b|
  {
    if |b| >= 3 {
      EncodedQuanta(b[3..]);
      EncodeCons(b);
      AddQuantum(|Encode(b[3..])|);
      assert |Encode(b)| == |Encode(b[3..])| + 4;
    } else {
      ShortEncodingLength(b);
    }
  }

  lemma ShortEncodingLength(b: seq<Byte>)
    requires |b| < 3
    ensures |Encode(b)| == if |b| == 0 then 0 else 4
  {
    if |b| == 1 {
      assert |EncodeUnpadded(b)| == 2 && PadLength(1) == 2;
    } else if |b| == 2 {
      assert |EncodeUnpadded(b)| == 3 && PadLength(2) == 1;
    }
  }

  lemma DecodeQuantaCons(g: string, rest: string, q: seq<Byte>, r: seq<Byte>)
    requires |g| == 4 && |rest| >= 4
    requires DecodeFull(g[0], g[1], g[2], g[3]) == Some(q)
    requires DecodeQuanta(rest) == Some(r)
    ensures DecodeQuanta(g + rest) == Some(q + r)
  {
    var s := g + rest;
    assert s[0] == g[0] && s[1] == g[1] && s[2] == g[2] && s[3] == g[3];
    assert s[4..] == rest;
  }

  lemma EncodeCons(b: seq<Byte>)
    requires |b| >= 3
    ensures Encode(b) == EncodeGroup(b[0], b[1], b[2]) + Encode(b[3..])
  {
    assert PadLength(|b|) == PadLength(|b[3..]|);
    var g, u := EncodeGroup(b[0], b[1], b[2]), EncodeUnpadded(b[3..]);
    assert EncodeUnpadded(b) == g + u;
    assert (g + u) + Padding(PadLength(|b|)) == g + (u + Padding(PadLength(|b|)));
  }

  lemma DecodeEncodeOne(b: seq<Byte>)
    requires |b| == 1
    ensures Decode(Encode(b)) == Some(b)
  {
    assert Encode(b) == [CharOf(b[0] / 4), CharOf((b[0] % 4) * 16), '=', '='];
    DecodeOneByte(b[0]);
    assert b == [b[0]];
  }

  lemma DecodeEncodeTwo(b: seq<Byte>)
    requires |b| == 2
    ensures Decode(Encode(b)) == Some(b)
  {
    assert Encode(b) == [CharOf(b[0] / 4), CharOf((b[0] % 4) * 16 + b[1] / 16), CharOf((b[1] % 16) * 4), '='];
    DecodeTwoBytes(b[0], b[1]);
    OutsideAlphabet();
    assert b == [b[0], b[1]];
  }

  /** A single full group decodes back. */
  lemma DecodeEncodeGroup(b: seq<Byte>)
    requires |b| == 3
    ensures Decode(Encode(b)) == Some(b)
  {
    var g := EncodeGroup(b[0], b[1], b[2]);
    DecodeGroup(b[0], b[1], b[2]);
    assert b[3..] == [];
    assert Encode(b) == g + EncodeUnpadded([]) + Padding(0);
    OutsideAlphabet();
    SextetOfCharOf((b[1] % 16) * 4 + b[2] / 64);
    SextetOfCharOf(b[2] % 64);
    assert InAlphabet(g[3]) && InAlphabet(g[2]);
    assert b == [b[0], b[1], b[2]];
  }

  /** The first group of a longer encoding: four characters that decode to the first three bytes. */
  lemma FrontGroup(b: seq<Byte>) returns (g: string)
    requires |b| > 3
    ensures Encode(b) == g + Encode(b[3..])
    ensures |g| == 4 && DecodeFull(g[0], g[1], g[2], g[3]) == Some(b[..3])
  {
    g := EncodeGroup(b[0], b[1], b[2]);
    DecodeGroup(b[0], b[1], b[2]);
    EncodeCons(b);
    assert b[..3] == [b[0], b[1], b[2]];
  }

  /** A full quantum in front of a decodable text of whole quanta. */
  lemma DecodeConcat(g: string, rest: string, q: seq<Byte>, r: seq<Byte>)
    requires |g| == 4 && |rest| % 4 == 0 && |rest| >= 4
    requires DecodeFull(g[0], g[1], g[2], g[3]) == Some(q)
    requires Decode(rest) == Some(r)
    ensures Decode(g + rest) == Some(q + r)
  {
    AddQuantum(|rest|);
    assert |g + rest| == |rest| + 4;
    assert DecodeQuanta(rest) == Some(r);
    DecodeQuantaCons(g, rest, q, r);
  }

  lemma AddQuantum(n: int)
    requires n % 4 == 0
    ensures (n + 4) % 4 == 0
  {
  }

  /** Decoding an encoding gives the bytes back. */
  lemma {:induction false} DecodeEncode(b: seq<Byte>)
    ensures Decode(Encode(b)) == Some(b)
    decreases |b|
  {
    if |b| == 0 {
      assert Encode(b) == "";
    } else if |b| == 1 {
      DecodeEncodeOne(b);
    } else if |b| == 2 {
      DecodeEncodeTwo(b);
    } else if |b| == 3 {
      DecodeEncodeGroup(b);
    } else {
      DecodeEncode(b[3..]);
      EncodedQuanta(b[3..]);
      var g := FrontGroup(b);
      DecodeConcat(g, Encode(b[3..]), b[..3], b[3..]);
      assert b[..3] + b[3..] == b;
    }
  }

  /** A string whose length is one more than a multiple of four never decodes once `===` is
      appended: a final quantum of one character and three `=` is not valid. */
  lemma {:induction false} TriplePaddingRejected(s: string)
    requires |s| % 4 == 1
    ensures Decode(s + "===") == None
    decreases |s|
  {
    var t := s + "===";
    OutsideAlphabet();
    if |s| == 1 {
      assert t == [s[0], '=', '=', '='];
    } else {
      assert t[..4] == s[..4] && t[4..] == s[4..] + "===";
      TriplePaddingRejected(s[4..]);
    }
  }
}
