/**
 * UTF-8, the encoding `Buffer.from(string)` applies before the octets are
 * turned into Base64. Dafny characters are Unicode scalar values, so every
 * character has exactly one encoding of one to four octets.
 */
module Utf8 {
  import opened Wrappers
  import opened Bytes

  /** A continuation octet `10xxxxxx` carrying six payload bits. */
  function Cont(x: int): Byte
    requires 0 <= x
  {
    0x80 + x % 64
  }

  predicate IsCont(b: Byte)
  {
    0x80 <= b < 0xC0
  }

  /** The six payload bits of a continuation octet. */
  function Bits(b: Byte): int
  {
    b as int - 0x80
  }

  /** The encoding of one scalar value, shortest form. */
  function EncodeChar(c: char): (e: seq<Byte>)
    ensures 1 <= |e| <= 4
    ensures (|e| == 1) == (c as int < 0x80)
    ensures forall k :: 1 <= k < |e| ==> IsCont(e[k])
  {
    var n := c as int;
    if n < 0x80 then [n]
    else if n < 0x800 then [0xC0 + n / 64, Cont(n)]
    else if n < 0x10000 then [0xE0 + n / 4096, Cont(n / 64), Cont(n)]
    else [0xF0 + n / 262144, Cont(n / 4096), Cont(n / 64), Cont(n)]
  }

  /**
   * Encodes a string, character by character. The encoding is exactly as long
   * as the string iff the string is ASCII, and then each octet is the
   * character's code.
   */
  function Encode(s: string): (e: seq<Byte>)
    ensures |s| <= |e| <= 4 * |s|
    ensures (|e| == |s|) <==> (forall i :: 0 <= i < |s| ==> s[i] as int < 0x80)
    ensures |e| == |s| ==> forall i :: 0 <= i < |s| ==> e[i] == s[i] as int
    decreases |s|
  {
    if |s| == 0 then [] else EncodeChar(s[0]) + Encode(s[1..])
  }

  /** The value `n` names a Unicode scalar value, i.e. a Dafny `char`. */
  predicate IsScalar(n: int)
  {
    0 <= n < 0xD800 || 0xE000 <= n < 0x11_0000
  }

  function ToChar(n: int): Option<char>
  {
    if IsScalar(n) then Some(n as char) else None
  }

  /**
   * Decodes the character at the front of `b`, with the number of octets it
   * took; `None` on a malformed lead or continuation octet, an overlong form
   * (a value that fits in fewer octets), or a value that is not a scalar value.
   */
  function DecodeChar(b: seq<Byte>): (r: Option<(char, nat)>)
    requires |b| > 0
    ensures r.Some? ==> 1 <= r.value.1 <= |b| && r.value.1 <= 4
  {
    var b0 := b[0] as int;
    if b0 < 0x80 then Some((b0 as char, 1))
    else if 0xC0 <= b0 < 0xE0 && |b| >= 2 && IsCont(b[1]) then
      var v := (b0 - 0xC0) * 64 + Bits(b[1]);
      if v < 0x80 then None
      else
        match ToChar(v)
        case Some(c) => Some((c, 2))
        case None => None
    else if 0xE0 <= b0 < 0xF0 && |b| >= 3 && IsCont(b[1]) && IsCont(b[2]) then
      var v := (b0 - 0xE0) * 4096 + Bits(b[1]) * 64 + Bits(b[2]);
      if v < 0x800 then None
      else
        match ToChar(v)
        case Some(c) => Some((c, 3))
        case None => None
    else if 0xF0 <= b0 < 0xF8 && |b| >= 4 && IsCont(b[1]) && IsCont(b[2]) && IsCont(b[3]) then
      var v := (b0 - 0xF0) * 262144 + Bits(b[1]) * 4096 + Bits(b[2]) * 64 + Bits(b[3]);
      if v < 0x10000 then None
      else
        match ToChar(v)
        case Some(c) => Some((c, 4))
        case None => None
    else None
  }

  /** Decodes a whole octet string; `None` when it is not well-formed. */
  function Decode(b: seq<Byte>): Option<string>
    decreases |b|
  {
    if |b| == 0 then Some([])
    else
      match DecodeChar(b)
      case None => None
      case Some((c, k)) =>
        match Decode(b[k..])
        case None => None
        case Some(rest) => Some([c] + rest)
  }

  /** The payload bits of the continuation octets reassemble the scalar value. */
  lemma TwoOctets(n: int)
    requires 0x80 <= n < 0x800
    ensures (n / 64) * 64 + n % 64 == n
  {
  }

  lemma ThreeOctets(n: int)
    requires 0x800 <= n < 0x10000
    ensures n / 4096 < 16
    ensures (n / 4096) * 4096 + ((n / 64) % 64) * 64 + n % 64 == n
  {
    var m := n / 64;
    assert m / 64 == n / 4096;
    assert m == (m / 64) * 64 + m % 64;
  }

  lemma FourOctets(n: int)
    requires 0x10000 <= n < 0x11_0000
    ensures n / 262144 < 8
    ensures (n / 262144) * 262144 + ((n / 4096) % 64) * 4096 + ((n / 64) % 64) * 64 + n % 64 == n
  {
    var m := n / 64;
    var p := m / 64;
    assert m / 64 == n / 4096;
    assert p / 64 == n / 262144;
    assert m == p * 64 + m % 64;
    assert p == (p / 64) * 64 + p % 64;
  }

  /** One character decodes back from its encoding, whatever follows it. */
  lemma CharRoundTrip(c: char, rest: seq<Byte>)
    ensures DecodeChar(EncodeChar(c) + rest) == Some((c, |EncodeChar(c)|))
  {
    var n := c as int;
    var b := EncodeChar(c) + rest;
    if n < 0x80 {
    } else if n < 0x800 {
      TwoOctets(n);
      assert b[0] - 0xC0 == n / 64;
      assert Bits(b[1]) == n % 64;
      assert ToChar(n) == Some(c);
    } else if n < 0x10000 {
      ThreeOctets(n);
      assert b[0] - 0xE0 == n / 4096;
      assert Bits(b[1]) == (n / 64) % 64;
      assert Bits(b[2]) == n % 64;
      assert ToChar(n) == Some(c);
    } else {
      FourOctets(n);
      assert b[0] - 0xF0 == n / 262144;
      assert Bits(b[1]) == (n / 4096) % 64;
      assert Bits(b[2]) == (n / 64) % 64;
      assert Bits(b[3]) == n % 64;
      assert ToChar(n) == Some(c);
    }
  }

  /** Decoding undoes encoding. */
  lemma {:induction false} RoundTrip(s: string)
    ensures Decode(Encode(s)) == Some(s)
    decreases |s|
  {
    if |s| > 0 {
      var e := EncodeChar(s[0]);
      var rest := Encode(s[1..]);
      CharRoundTrip(s[0], rest);
      assert (e + rest)[|e|..] == rest;
      RoundTrip(s[1..]);
      assert [s[0]] + s[1..] == s;
    }
  }

  /** Splitting `q * 64 + r` by 64 gives back `q` and `r`. */
  lemma Split64(q: int, r: int)
    requires 0 <= r < 64
    ensures (q * 64 + r) / 64 == q && (q * 64 + r) % 64 == r
  {
  }

  /** Splitting `q * 4096 + r` by 4096 gives back `q`. */
  lemma Split4096(q: int, r: int)
    requires 0 <= r < 4096
    ensures (q * 4096 + r) / 4096 == q
  {
  }

  /** Splitting `q * 262144 + r` by 262144 gives back `q`. */
  lemma Split262144(q: int, r: int)
    requires 0 <= r < 262144
    ensures (q * 262144 + r) / 262144 == q
  {
  }

  /** A decoded two-octet character re-encodes to the same two octets. */
  lemma TwoOctetCanonical(b: seq<Byte>)
    requires |b| >= 2 && 0xC0 <= b[0] < 0xE0 && IsCont(b[1])
    requires DecodeChar(b).Some?
    ensures EncodeChar(DecodeChar(b).value.0) == b[..2]
  {
    var a, x := b[0] as int - 0xC0, Bits(b[1]);
    var n := a * 64 + x;
    Split64(a, x);
    assert DecodeChar(b).value.0 as int == n;
    assert EncodeChar(n as char) == [0xC0 + n / 64, Cont(n)];
  }

  /** A decoded three-octet character re-encodes to the same three octets. */
  lemma ThreeOctetCanonical(b: seq<Byte>)
    requires |b| >= 3 && 0xE0 <= b[0] < 0xF0 && IsCont(b[1]) && IsCont(b[2])
    requires DecodeChar(b).Some?
    ensures EncodeChar(DecodeChar(b).value.0) == b[..3]
  {
    var a, y, x := b[0] as int - 0xE0, Bits(b[1]), Bits(b[2]);
    var n := a * 4096 + y * 64 + x;
    assert n == (a * 64 + y) * 64 + x;
    Split64(a * 64 + y, x);
    Split64(a, y);
    Split4096(a, y * 64 + x);
    assert DecodeChar(b).value.0 as int == n;
    assert EncodeChar(n as char) == [0xE0 + n / 4096, Cont(n / 64), Cont(n)];
  }

  /** A decoded four-octet character re-encodes to the same four octets. */
  lemma FourOctetCanonical(b: seq<Byte>)
    requires |b| >= 4 && 0xF0 <= b[0] < 0xF8 && IsCont(b[1]) && IsCont(b[2]) && IsCont(b[3])
    requires DecodeChar(b).Some?
    ensures EncodeChar(DecodeChar(b).value.0) == b[..4]
  {
    var a, z, y, x := b[0] as int - 0xF0, Bits(b[1]), Bits(b[2]), Bits(b[3]);
    var n := a * 262144 + z * 4096 + y * 64 + x;
    assert n == ((a * 64 + z) * 64 + y) * 64 + x;
    assert n == (a * 64 + z) * 4096 + (y * 64 + x);
    Split64((a * 64 + z) * 64 + y, x);
    Split64(a * 64 + z, y);
    Split64(a, z);
    Split4096(a * 64 + z, y * 64 + x);
    Split262144(a, z * 4096 + y * 64 + x);
    assert DecodeChar(b).value.0 as int == n;
    assert EncodeChar(n as char) == [0xF0 + n / 262144, Cont(n / 4096), Cont(n / 64), Cont(n)];
  }

  /** The octets a character is decoded from are exactly its encoding. */
  lemma CharCanonical(b: seq<Byte>)
    requires |b| > 0 && DecodeChar(b).Some?
    ensures EncodeChar(DecodeChar(b).value.0) == b[..DecodeChar(b).value.1]
  {
    if b[0] < 0x80 {
      assert b[..1] == [b[0]];
    } else if 0xC0 <= b[0] < 0xE0 {
      TwoOctetCanonical(b);
    } else if 0xE0 <= b[0] < 0xF0 {
      ThreeOctetCanonical(b);
    } else {
      FourOctetCanonical(b);
    }
  }

  /** A well-formed octet string decodes as its first character followed by the rest. */
  lemma DecodeStep(b: seq<Byte>)
    requires |b| > 0 && Decode(b).Some?
    ensures DecodeChar(b).Some?
    ensures Decode(b[DecodeChar(b).value.1..]).Some?
    ensures Decode(b).value == [DecodeChar(b).value.0] + Decode(b[DecodeChar(b).value.1..]).value
  {
  }

  /** Encoding a non-empty string puts its first character's octets first. */
  lemma EncodeCons(c: char, rest: string)
    ensures Encode([c] + rest) == EncodeChar(c) + Encode(rest)
  {
    assert ([c] + rest)[1..] == rest;
  }

  lemma SplitAt<T>(b: seq<T>, k: nat)
    requires k <= |b|
    ensures b[..k] + b[k..] == b
  {
  }

  /**
   * Decoding accepts only shortest-form UTF-8: whatever decodes is exactly the
   * encoding of what it decodes to, so no overlong form is accepted.
   */
  lemma {:induction false} Canonical(b: seq<Byte>)
    requires Decode(b).Some?
    ensures Encode(Decode(b).value) == b
    decreases |b|
  {
    if |b| > 0 {
      DecodeStep(b);
      var (c, k) := DecodeChar(b).value;
      var rest := Decode(b[k..]).value;
      CharCanonical(b);
      Canonical(b[k..]);
      EncodeCons(c, rest);
      SplitAt(b, k);
    }
  }

  /** Overlong forms of NUL and a UTF-16 surrogate are rejected. */
  lemma RejectsOverlongAndSurrogates()
    ensures Decode([0xC0, 0x80]).None?
    ensures Decode([0xE0, 0x80, 0x80]).None?
    ensures Decode([0xF0, 0x80, 0x80, 0x80]).None?
    ensures Decode([0xED, 0xA0, 0x80]).None?
  {
  }

  /** Concatenated strings encode to concatenated octets. */
  lemma {:induction false} EncodeAppend(s: string, t: string)
    ensures Encode(s + t) == Encode(s) + Encode(t)
    decreases |s|
  {
    if |s| > 0 {
      assert (s + t)[1..] == s[1..] + t;
      EncodeAppend(s[1..], t);
    } else {
      assert s + t == t;
    }
  }
}
