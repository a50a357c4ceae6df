/**
 * Base64 with the standard alphabet and `=` padding (section 4 of RFC 4648),
 * which is what `Buffer.prototype.toString('base64')` produces.
 */
module Base64 {
  import opened Wrappers
  import opened Bytes

  /** A 6-bit group, the index of one alphabet character. */
  type Sextet = x: int | 0 <= x < 64

  /** The character for a 6-bit group: `A-Z`, `a-z`, `0-9`, `+`, `/`. */
  function CharOf(i: Sextet): (c: char)
    ensures c != '=' && InAlphabet(c)
  {
    if i < 26 then ('A' as int + i) as char
    else if i < 52 then ('a' as int + (i - 26)) as char
    else if i < 62 then ('0' as int + (i - 52)) as char
    else if i == 62 then '+'
    else '/'
  }

  /** The 6-bit group an alphabet character stands for; `None` outside the alphabet. */
  function IndexOf(c: char): Option<Sextet>
  {
    if 'A' <= c <= 'Z' then Some(c as int - 'A' as int)
    else if 'a' <= c <= 'z' then Some(c as int - 'a' as int + 26)
    else if '0' <= c <= '9' then Some(c as int - '0' as int + 52)
    else if c == '+' then Some(62)
    else if c == '/' then Some(63)
    else None
  }

  predicate InAlphabet(c: char)
  {
    IndexOf(c).Some?
  }

  /** The alphabet is a bijection between 6-bit groups and 64 characters. */
  lemma IndexOfCharOf(i: Sextet)
    ensures IndexOf(CharOf(i)) == Some(i)
  {
  }

  lemma CharOfIndexOf(c: char)
    requires InAlphabet(c)
    ensures CharOf(IndexOf(c).value) == c
  {
  }

  /** Three octets become four characters. */
  function EncodeTriple(b0: Byte, b1: Byte, b2: Byte): seq<char>
  {
    [CharOf(b0 / 4),
     CharOf((b0 % 4) * 16 + b1 / 16),
     CharOf((b1 % 16) * 4 + b2 / 64),
     CharOf(b2 % 64)]
  }

  /** Standard Base64 encoding of an octet string. */
  function Encode(b: seq<Byte>): (s: seq<char>)
    ensures |s| == 4 * ((|b| + 2) / 3)
    ensures forall k :: 0 <= k < |s| ==> InAlphabet(s[k]) || s[k] == '='
    decreases |b|
  {
    if |b| == 0 then []
    else if |b| == 1 then [CharOf(b[0] / 4), CharOf((b[0] % 4) * 16), '=', '=']
    else if |b| == 2 then
      [CharOf(b[0] / 4), CharOf((b[0] % 4) * 16 + b[1] / 16), CharOf((b[1] % 16) * 4), '=']
    else
      EncodeTriple(b[0], b[1], b[2]) + Encode(b[3..])
  }

  /** The test vectors of section 10 of RFC 4648 up to one full group. */
  lemma TestVectorsShort()
    ensures Encode([]) == ""
    ensures Encode([102]) == "Zg=="
    ensures Encode([102, 111]) == "Zm8="
    ensures Encode([102, 111, 111]) == "Zm9v"
  {
  }

  /** The test vector `foob` of section 10 of RFC 4648. */
  lemma TestVectorFoob()
    ensures Encode([102, 111, 111, 98]) == "Zm9vYg=="
  {
  }

  /** The test vector `fooba` of section 10 of RFC 4648. */
  lemma TestVectorFooba()
    ensures Encode([102, 111, 111, 98, 97]) == "Zm9vYmE="
  {
    var b: seq<Byte> := [102, 111, 111, 98, 97];
    assert b[3..] == [98, 97];
    assert CharOf(24) == 'Y' && CharOf(38) == 'm' && CharOf(4) == 'E';
    assert Encode([98, 97]) == ['Y', 'm', 'E', '='];
  }

  /** The test vector `foobar` of section 10 of RFC 4648. */
  lemma TestVectorFoobar()
    ensures Encode([102, 111, 111, 98, 97, 114]) == "Zm9vYmFy"
  {
  }

  /** The first, second and third octet carried by consecutive 6-bit groups. */
  function High(c0: Sextet, c1: Sextet): Byte
  {
    (c0 as int) * 4 + (c1 as int) / 16
  }

  function Middle(c1: Sextet, c2: Sextet): Byte
  {
    ((c1 as int) % 16) * 16 + (c2 as int) / 4
  }

  function Low(c2: Sextet, c3: Sextet): Byte
  {
    ((c2 as int) % 4) * 64 + c3 as int
  }

  /** Decodes one unpadded group of four characters. */
  function DecodeQuad(q: seq<char>): Option<seq<Byte>>
    requires |q| == 4
  {
    match (IndexOf(q[0]), IndexOf(q[1]), IndexOf(q[2]), IndexOf(q[3]))
    case (Some(c0), Some(c1), Some(c2), Some(c3)) =>
      Some([High(c0, c1), Middle(c1, c2), Low(c2, c3)])
    case _ => None
  }

  /**
   * Decodes the last group, which may end in one or two `=`. Pad bits that
   * are not zero are rejected, as section 3.5 of RFC 4648 permits.
   */
  function DecodeFinal(q: seq<char>): Option<seq<Byte>>
    requires |q| == 4
  {
    if q[2] == '=' && q[3] == '=' then
      match (IndexOf(q[0]), IndexOf(q[1]))
      case (Some(c0), Some(c1)) =>
        if c1 % 16 == 0 then Some([High(c0, c1)]) else None
      case _ => None
    else if q[3] == '=' then
      match (IndexOf(q[0]), IndexOf(q[1]), IndexOf(q[2]))
      case (Some(c0), Some(c1), Some(c2)) =>
        if c2 % 4 == 0 then Some([High(c0, c1), Middle(c1, c2)]) else None
      case _ => None
    else
      DecodeQuad(q)
  }

  /** Decodes a padded Base64 string; `None` when it is not one. */
  function Decode(s: seq<char>): Option<seq<Byte>>
    decreases |s|
  {
    if |s| == 0 then Some([])
    else if |s| < 4 then None
    else if |s| == 4 then DecodeFinal(s)
    else
      match (DecodeQuad(s[..4]), Decode(s[4..]))
      case (Some(h), Some(t)) => Some(h + t)
      case _ => None
  }

  /** Splitting `q * 16 + r` by 16 gives back `q` and `r`. */
  lemma Split16(q: int, r: int)
    requires 0 <= r < 16
    ensures (q * 16 + r) / 16 == q && (q * 16 + r) % 16 == r
  {
  }

  /** Splitting `q * 4 + r` by 4 gives back `q` and `r`. */
  lemma Split4(q: int, r: int)
    requires 0 <= r < 4
    ensures (q * 4 + r) / 4 == q && (q * 4 + r) % 4 == r
  {
  }

  lemma HighOf(b0: Byte, b1: Byte)
    ensures High(b0 / 4, (b0 % 4) * 16 + b1 / 16) == b0
  {
    Split16(b0 % 4, b1 / 16);
  }

  lemma MiddleOf(b0: Byte, b1: Byte, b2: Byte)
    ensures Middle((b0 % 4) * 16 + b1 / 16, (b1 % 16) * 4 + b2 / 64) == b1
  {
    Split16(b0 % 4, b1 / 16);
    Split4(b1 % 16, b2 / 64);
  }

  lemma LowOf(b1: Byte, b2: Byte)
    ensures Low((b1 % 16) * 4 + b2 / 64, b2 % 64) == b2
  {
    Split4(b1 % 16, b2 / 64);
  }

  lemma TripleRoundTrip(b0: Byte, b1: Byte, b2: Byte)
    ensures DecodeQuad(EncodeTriple(b0, b1, b2)) == Some([b0, b1, b2])
  {
    IndexOfCharOf(b0 / 4);
    IndexOfCharOf((b0 % 4) * 16 + b1 / 16);
    IndexOfCharOf((b1 % 16) * 4 + b2 / 64);
    IndexOfCharOf(b2 % 64);
    HighOf(b0, b1);
    MiddleOf(b0, b1, b2);
    LowOf(b1, b2);
  }

  lemma OneOctetRoundTrip(b0: Byte)
    ensures Decode(Encode([b0])) == Some([b0])
  {
    IndexOfCharOf(b0 / 4);
    IndexOfCharOf((b0 % 4) * 16);
    HighOf(b0, 0);
    Split16(b0 % 4, 0);
    assert Encode([b0]) == [CharOf(b0 / 4), CharOf((b0 % 4) * 16), '=', '='];
  }

  lemma TwoOctetRoundTrip(b0: Byte, b1: Byte)
    ensures Decode(Encode([b0, b1])) == Some([b0, b1])
  {
    IndexOfCharOf(b0 / 4);
    IndexOfCharOf((b0 % 4) * 16 + b1 / 16);
    IndexOfCharOf((b1 % 16) * 4);
    HighOf(b0, b1);
    MiddleOf(b0, b1, 0);
    Split4(b1 % 16, 0);
    assert Encode([b0, b1]) == [CharOf(b0 / 4), CharOf((b0 % 4) * 16 + b1 / 16), CharOf((b1 % 16) * 4), '='];
  }

  /** A full group followed by more text decodes group by group. */
  lemma DecodeLeadingQuad(h: seq<char>, t: seq<char>)
    requires |h| == 4 && |t| > 0
    ensures Decode(h + t) ==
              if DecodeQuad(h).Some? && Decode(t).Some? then Some(DecodeQuad(h).value + Decode(t).value) else None
  {
    assert (h + t)[..4] == h;
    assert (h + t)[4..] == t;
  }

  lemma FirstThree<T>(b: seq<T>)
    requires |b| >= 3
    ensures [b[0], b[1], b[2]] + b[3..] == b
  {
  }

  /** Three octets alone encode to one unpadded group, which decodes back. */
  lemma ThreeOctetRoundTrip(b: seq<Byte>)
    requires |b| == 3
    ensures Decode(Encode(b)) == Some(b)
  {
    TripleRoundTrip(b[0], b[1], b[2]);
    assert Encode(b[3..]) == [];
    assert Encode(b) == EncodeTriple(b[0], b[1], b[2]);
    assert b == [b[0], b[1], b[2]];
  }

  /** Longer input: the first group decodes to the first three octets, the rest by hypothesis. */
  lemma TripleThenRoundTrip(b: seq<Byte>)
    requires |b| > 3
    requires Decode(Encode(b[3..])) == Some(b[3..])
    ensures Decode(Encode(b)) == Some(b)
  {
    var head := EncodeTriple(b[0], b[1], b[2]);
    var tail := Encode(b[3..]);
    assert Encode(b) == head + tail;
    assert (|b| - 1) / 3 >= 1;
    assert |tail| > 0;
    TripleRoundTrip(b[0], b[1], b[2]);
    DecodeLeadingQuad(head, tail);
    assert Decode(head + tail) == Some([b[0], b[1], b[2]] + b[3..]);
    FirstThree(b);
  }

  /** Decoding undoes encoding: the encoded octets are recovered exactly. */
  lemma {:induction false} RoundTrip(b: seq<Byte>)
    ensures Decode(Encode(b)) == Some(b)
    decreases |b|
  {
    if |b| == 0 {
    } else if |b| == 1 {
      OneOctetRoundTrip(b[0]);
      assert b == [b[0]];
    } else if |b| == 2 {
      TwoOctetRoundTrip(b[0], b[1]);
      assert b == [b[0], b[1]];
    } else if |b| == 3 {
      ThreeOctetRoundTrip(b);
    } else {
      RoundTrip(b[3..]);
      TripleThenRoundTrip(b);
    }
  }

  /** Splitting `q * 64 + r` by 64 gives back `q` and `r`. */
  lemma Split64(q: int, r: int)
    requires 0 <= r < 64
    ensures (q * 64 + r) / 64 == q && (q * 64 + r) % 64 == r
  {
  }

  /** Re-encoding the octets of a decoded group gives back its 6-bit groups. */
  lemma SextetsOf(c0: Sextet, c1: Sextet, c2: Sextet, c3: Sextet)
    ensures High(c0, c1) / 4 == c0
    ensures (High(c0, c1) % 4) * 16 + Middle(c1, c2) / 16 == c1
    ensures (Middle(c1, c2) % 16) * 4 + Low(c2, c3) / 64 == c2
    ensures Low(c2, c3) % 64 == c3
  {
    Split4(c0, c1 / 16);
    Split16(c1 % 16, c2 / 4);
    Split64(c2 % 4, c3);
  }

  lemma SextetsReencode(c0: Sextet, c1: Sextet, c2: Sextet, c3: Sextet)
    ensures EncodeTriple(High(c0, c1), Middle(c1, c2), Low(c2, c3)) == [CharOf(c0), CharOf(c1), CharOf(c2), CharOf(c3)]
  {
    SextetsOf(c0, c1, c2, c3);
  }

  lemma QuadCanonical(q: seq<char>)
    requires |q| == 4 && DecodeQuad(q).Some?
    ensures |DecodeQuad(q).value| == 3
    ensures EncodeTriple(DecodeQuad(q).value[0], DecodeQuad(q).value[1], DecodeQuad(q).value[2]) == q
  {
    var c0, c1, c2, c3 := IndexOf(q[0]).value, IndexOf(q[1]).value, IndexOf(q[2]).value, IndexOf(q[3]).value;
    assert DecodeQuad(q).value == [High(c0, c1), Middle(c1, c2), Low(c2, c3)];
    SextetsReencode(c0, c1, c2, c3);
    CharOfIndexOf(q[0]);
    CharOfIndexOf(q[1]);
    CharOfIndexOf(q[2]);
    CharOfIndexOf(q[3]);
  }

  lemma FinalCanonical(q: seq<char>)
    requires |q| == 4 && DecodeFinal(q).Some?
    ensures Encode(DecodeFinal(q).value) == q
  {
    if q[2] == '=' && q[3] == '=' {
      var c0, c1 := IndexOf(q[0]).value, IndexOf(q[1]).value;
      SextetsOf(c0, c1, 0, 0);
      CharOfIndexOf(q[0]);
      CharOfIndexOf(q[1]);
      assert c1 == (c1 / 16) * 16;
    } else if q[3] == '=' {
      var c0, c1, c2 := IndexOf(q[0]).value, IndexOf(q[1]).value, IndexOf(q[2]).value;
      SextetsOf(c0, c1, c2, 0);
      CharOfIndexOf(q[0]);
      CharOfIndexOf(q[1]);
      CharOfIndexOf(q[2]);
      assert c2 == (c2 / 4) * 4;
    } else {
      var b := DecodeQuad(q).value;
      QuadCanonical(q);
      assert b == [b[0], b[1], b[2]];
      assert b[3..] == [];
    }
  }

  /**
   * Decoding accepts only canonical encodings: whatever decodes re-encodes to
   * exactly the same text, so decoding and encoding are mutually inverse.
   */
  lemma {:induction false} Canonical(s: seq<char>)
    requires Decode(s).Some?
    ensures Encode(Decode(s).value) == s
    decreases |s|
  {
    if |s| == 0 {
    } else if |s| == 4 {
      FinalCanonical(s);
    } else {
      var h := DecodeQuad(s[..4]).value;
      var t := Decode(s[4..]).value;
      QuadCanonical(s[..4]);
      Canonical(s[4..]);
      assert (h + t)[3..] == t;
      assert Encode(h + t) == EncodeTriple(h[0], h[1], h[2]) + Encode(t);
      assert s == s[..4] + s[4..];
    }
  }
}
