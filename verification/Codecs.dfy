/** base64url without padding (sections 3.2 and 5 of RFC 4648) and lower-case hexadecimal. */
module Codecs {
  import opened Wrappers
  import opened Arithmetic

  type Byte = x: int | 0 <= x < 256

  // ----- base64url -----

  const UPPER: string := "ABCDEFGHIJKLMNOPQRSTUVWXYZ"
  const LOWER: string := "abcdefghijklmnopqrstuvwxyz"
  const DIGITS: string := "0123456789"
  const ALPHABET: string := UPPER + LOWER + DIGITS + "-_"

  /** The value of a character in table 2 of RFC 4648. */
  function Value(c: char): (v: Option<nat>)
    ensures v.Some? ==> v.value < 64
  {
    if 'A' <= c <= 'Z' then Some(c as int - 'A' as int)
    else if 'a' <= c <= 'z' then Some(c as int - 'a' as int + 26)
    else if '0' <= c <= '9' then Some(c as int - '0' as int + 52)
    else if c == '-' then Some(62)
    else if c == '_' then Some(63)
    else None
  }

  lemma UpperAt(v: nat)
    requires v < 26
    ensures |UPPER| == 26 && UPPER[v] as int == 'A' as int + v
  {
  }

  lemma LowerAt(v: nat)
    requires v < 26
    ensures |LOWER| == 26 && LOWER[v] as int == 'a' as int + v
  {
  }

  lemma DigitAt(v: nat)
    requires v < 10
    ensures |DIGITS| == 10 && DIGITS[v] as int == '0' as int + v
  {
  }

  lemma AlphabetValues(v: nat)
    requires v < 64
    ensures |ALPHABET| == 64 && Value(ALPHABET[v]) == Some(v)
  {
    hide UPPER, LOWER, DIGITS;
    UpperAt(if v < 26 then v else 0);
    LowerAt(if 26 <= v < 52 then v - 26 else 0);
    DigitAt(if 52 <= v < 62 then v - 52 else 0);
  }

  lemma ValueAlphabet(c: char)
    requires Value(c).Some?
    ensures |ALPHABET| == 64 && ALPHABET[Value(c).value] == c
  {
    AlphabetValues(Value(c).value);
    ValueInjective(c, ALPHABET[Value(c).value]);
  }

  lemma ValueInjective(c: char, d: char)
    requires Value(c).Some? && Value(c) == Value(d)
    ensures c == d
  {
  }

  function Sextet(triple: nat, shift: nat): (v: nat)
    requires shift > 0
    ensures v < 64
  {
    triple / shift % 64
  }

  function Letter(v: nat): char
    requires v < 64
  {
    AlphabetValues(v);
    ALPHABET[v]
  }

  function Group(a: Byte, b: Byte, c: Byte): (s: string)
    ensures |s| == 4
  {
    var triple := a * 0x10000 + b * 0x100 + c;
    [Letter(Sextet(triple, 0x40000)), Letter(Sextet(triple, 0x1000)),
     Letter(Sextet(triple, 0x40)), Letter(Sextet(triple, 1))]
  }

  /** The groups of the loop, the last one filled up with zero octets. */
  function Groups(b: seq<Byte>): string {
    if |b| == 0 then ""
    else if |b| == 1 then Group(b[0], 0, 0)
    else if |b| == 2 then Group(b[0], b[1], 0)
    else Group(b[0], b[1], b[2]) + Groups(b[3..])
  }

  /** The encoding by section 5: a last group of one or two octets gives two or three characters. */
  function Encode(b: seq<Byte>): string {
    if |b| == 0 then ""
    else if |b| == 1 then Group(b[0], 0, 0)[..2]
    else if |b| == 2 then Group(b[0], b[1], 0)[..3]
    else Group(b[0], b[1], b[2]) + Encode(b[3..])
  }

  function Padding(n: nat): nat {
    (3 - n % 3) % 3
  }

  lemma {:induction false} GroupsCut(b: seq<Byte>)
    ensures |Groups(b)| >= Padding(|b|) && Encode(b) == Groups(b)[..|Groups(b)| - Padding(|b|)]
  {
    hide Group;
    if |b| >= 3 {
      GroupsCut(b[3..]);
      assert |b[3..]| % 3 == |b| % 3;
      var g := Group(b[0], b[1], b[2]);
      var k := |Groups(b[3..])| - Padding(|b|);
      assert (g + Groups(b[3..]))[..4 + k] == g + Groups(b[3..])[..k];
    }
  }

  lemma GroupsStep(data: seq<Byte>, i: nat)
    requires i < |data|
    ensures Groups(data[i..]) ==
            Group(data[i], if i + 1 < |data| then data[i + 1] else 0, if i + 2 < |data| then data[i + 2] else 0)
            + Groups(data[if i + 3 <= |data| then i + 3 else |data|..])
  {
    hide Group;
    if i + 3 <= |data| {
      assert data[i..][3..] == data[i + 3..];
    }
  }

  method Base64UrlEncode(data: seq<Byte>) returns (result: string)
    ensures result == Encode(data)
  {
    hide Group, Encode, Letter;
    result := "";
    var i := 0;
    assert data[0..] == data;
    while i < |data|
      invariant 0 <= i <= |data|
      invariant result + Groups(data[i..]) == Groups(data)
      decreases |data| - i
    {
      GroupsStep(data, i);
      ghost var was := result;
      var octetA: Byte, octetB: Byte, octetC: Byte := 0, 0, 0;
      octetA, i := data[i], i + 1;
      if i < |data| {
        octetB, i := data[i], i + 1;
      }
      if i < |data| {
        octetC, i := data[i], i + 1;
      }
      var triple := octetA * 0x10000 + octetB * 0x100 + octetC;
      var g := [Letter(Sextet(triple, 0x40000)), Letter(Sextet(triple, 0x1000)),
                Letter(Sextet(triple, 0x40)), Letter(Sextet(triple, 1))];
      GroupIs(octetA, octetB, octetC);
      result := result + g;
      assert was + (g + Groups(data[i..])) == result + Groups(data[i..]);
    }
    var padding := (3 - (|data| % 3)) % 3;
    assert data[i..] == [] && Groups([]) == "";
    GroupsCut(data);
    if padding > 0 {
      result := result[..|result| - padding];
    }
  }

  lemma GroupIs(a: Byte, b: Byte, c: Byte)
    ensures var triple := a * 0x10000 + b * 0x100 + c;
            Group(a, b, c) == [Letter(Sextet(triple, 0x40000)), Letter(Sextet(triple, 0x1000)),
                               Letter(Sextet(triple, 0x40)), Letter(Sextet(triple, 1))]
  {
  }

  /** The strict decoder of section 5: alphabet only, no padding, unused bits zero (section 3.5). */
  function Decode(s: string): Option<seq<Byte>> {
    if |s| == 0 then Some([])
    else if |s| == 1 then None
    else
      var v0, v1 := Value(s[0]), Value(s[1]);
      if v0.None? || v1.None? then None
      else if |s| == 2 then
        if v1.value % 16 != 0 then None else Some([v0.value * 4 + v1.value / 16])
      else
        var v2 := Value(s[2]);
        if v2.None? then None
        else if |s| == 3 then
          if v2.value % 4 != 0 then None
          else Some([v0.value * 4 + v1.value / 16, v1.value % 16 * 16 + v2.value / 4])
        else
          var v3 := Value(s[3]);
          var rest := Decode(s[4..]);
          if v3.None? || rest.None? then None
          else Some([v0.value * 4 + v1.value / 16, v1.value % 16 * 16 + v2.value / 4, v2.value % 4 * 64 + v3.value]
                    + rest.value)
  }

  lemma Sextets(a: Byte, b: Byte, c: Byte)
    ensures var triple := a * 0x10000 + b * 0x100 + c;
            Sextet(triple, 0x40000) == a / 4 && Sextet(triple, 0x1000) == a % 4 * 16 + b / 16 &&
            Sextet(triple, 0x40) == b % 16 * 4 + c / 64 && Sextet(triple, 1) == c % 64
  {
    var triple := a * 0x10000 + b * 0x100 + c;
    assert triple / 0x40000 == a / 4;
    assert triple / 0x1000 == a * 16 + b / 16;
    assert triple / 0x40 == a * 0x400 + b * 4 + c / 64;
    Remainder(a / 4, 0, a / 4);
    Remainder(a * 16 + b / 16, a / 4, a % 4 * 16 + b / 16);
    Remainder(a * 0x400 + b * 4 + c / 64, a * 16 + b / 16, b % 16 * 4 + c / 64);
    Remainder(triple, a * 0x400 + b * 4 + c / 64, c % 64);
  }

  lemma Remainder(x: nat, q: nat, r: nat)
    requires r < 64 && x == 64 * q + r
    ensures x % 64 == r
  {
  }

  lemma GroupValues(a: Byte, b: Byte, c: Byte)
    ensures var g := Group(a, b, c);
            Value(g[0]) == Some(a / 4) && Value(g[1]) == Some(a % 4 * 16 + b / 16) &&
            Value(g[2]) == Some(b % 16 * 4 + c / 64) && Value(g[3]) == Some(c % 64)
  {
    hide Sextet, Value, ALPHABET;
    var triple := a * 0x10000 + b * 0x100 + c;
    Sextets(a, b, c);
    AlphabetValues(Sextet(triple, 0x40000));
    AlphabetValues(Sextet(triple, 0x1000));
    AlphabetValues(Sextet(triple, 0x40));
    AlphabetValues(Sextet(triple, 1));
  }

  lemma SingleRoundTrip(a: Byte, s: string)
    requires |s| == 2 && Value(s[0]) == Some(a / 4) && Value(s[1]) == Some(a % 4 * 16)
    ensures Decode(s) == Some([a])
  {
    hide Value;
    var v0, v1 := a / 4, a % 4 * 16;
    assert v0 * 4 + v1 / 16 == a && v1 % 16 == 0;
  }

  lemma PairRoundTrip(a: Byte, b: Byte, s: string)
    requires |s| == 3 && Value(s[0]) == Some(a / 4) && Value(s[1]) == Some(a % 4 * 16 + b / 16)
    requires Value(s[2]) == Some(b % 16 * 4)
    ensures Decode(s) == Some([a, b])
  {
    hide Value;
    var v0, v1, v2 := a / 4, a % 4 * 16 + b / 16, b % 16 * 4;
    assert v0 * 4 + v1 / 16 == a && v1 % 16 * 16 + v2 / 4 == b && v2 % 4 == 0;
  }

  /** Decoding what was encoded gives the octets back. */
  lemma {:induction false} DecodeEncode(b: seq<Byte>)
    ensures Decode(Encode(b)) == Some(b)
  {
    hide Group, Value;
    if |b| == 1 {
      GroupValues(b[0], 0, 0);
      SingleRoundTrip(b[0], Encode(b));
      assert b == [b[0]];
    } else if |b| == 2 {
      GroupValues(b[0], b[1], 0);
      PairRoundTrip(b[0], b[1], Encode(b));
      assert b == [b[0], b[1]];
    } else if |b| >= 3 {
      DecodeEncode(b[3..]);
      EncodeFront(b);
      DecodeGroup(b[0], b[1], b[2], Encode(b), b[3..]);
      assert b == [b[0], b[1], b[2]] + b[3..];
    }
  }

  lemma DecodeGroup(a: Byte, b: Byte, c: Byte, s: string, rest: seq<Byte>)
    requires |s| >= 4 && s[..4] == Group(a, b, c) && Decode(s[4..]) == Some(rest)
    ensures Decode(s) == Some([a, b, c] + rest)
  {
    hide Group, Value;
    assert s[0] == s[..4][0] && s[1] == s[..4][1] && s[2] == s[..4][2] && s[3] == s[..4][3];
    GroupValues(a, b, c);
  }

  /** Every text the decoder takes is the encoding of what it yields, so the form is unique. */
  lemma {:induction false} EncodeDecode(s: string)
    requires Decode(s).Some?
    ensures Encode(Decode(s).value) == s
  {
    hide Group, Value;
    if |s| >= 2 {
      var v0, v1 := Value(s[0]).value, Value(s[1]).value;
      ValueAlphabet(s[0]);
      ValueAlphabet(s[1]);
      if |s| == 2 {
        GroupOf(v0, v1, 0, 0);
      } else {
        var v2 := Value(s[2]).value;
        ValueAlphabet(s[2]);
        if |s| == 3 {
          GroupOf(v0, v1, v2, 0);
        } else {
          var v3 := Value(s[3]).value;
          ValueAlphabet(s[3]);
          GroupOf(v0, v1, v2, v3);
          EncodeDecode(s[4..]);
          var b := Decode(s).value;
          assert b[3..] == Decode(s[4..]).value;
          assert s == [s[0], s[1], s[2], s[3]] + s[4..];
        }
      }
    }
  }

  lemma GroupOf(v0: nat, v1: nat, v2: nat, v3: nat)
    requires v0 < 64 && v1 < 64 && v2 < 64 && v3 < 64
    ensures |ALPHABET| == 64
    ensures Group(v0 * 4 + v1 / 16, v1 % 16 * 16 + v2 / 4, v2 % 4 * 64 + v3)
            == [ALPHABET[v0], ALPHABET[v1], ALPHABET[v2], ALPHABET[v3]]
  {
    AlphabetValues(0);
    hide ALPHABET, Sextet;
    var a, b, c := v0 * 4 + v1 / 16, v1 % 16 * 16 + v2 / 4, v2 % 4 * 64 + v3;
    Sextets(a, b, c);
    Regroup(v0, v1, v2, v3);
  }

  lemma Regroup(v0: nat, v1: nat, v2: nat, v3: nat)
    requires v0 < 64 && v1 < 64 && v2 < 64 && v3 < 64
    ensures var a, b, c := v0 * 4 + v1 / 16, v1 % 16 * 16 + v2 / 4, v2 % 4 * 64 + v3;
            a / 4 == v0 && a % 4 * 16 + b / 16 == v1 && b % 16 * 4 + c / 64 == v2 && c % 64 == v3
  {
  }

  /** Four characters for three octets, rounded up, all in the alphabet. */
  lemma {:induction false} EncodeShape(b: seq<Byte>)
    ensures |Encode(b)| == (4 * |b| + 2) / 3
    ensures forall i | 0 <= i < |Encode(b)| :: Encode(b)[i] in ALPHABET
  {
    if |b| >= 3 {
      EncodeShape(b[3..]);
    }
  }

  // ----- The bits behind the characters -----

  /** The n low bits of v, the highest first. */
  function Bits(v: nat, n: nat): (s: seq<bool>)
    ensures |s| == n
  {
    if n == 0 then [] else Bits(v / 2, n - 1) + [v % 2 == 1]
  }

  function OctetBits(b: seq<Byte>): seq<bool> {
    if b == [] then [] else Bits(b[0], 8) + OctetBits(b[1..])
  }

  function SextetBits(s: string): seq<bool>
    requires forall i | 0 <= i < |s| :: Value(s[i]).Some?
  {
    if s == "" then [] else Bits(Value(s[0]).value, 6) + SextetBits(s[1..])
  }

  lemma {:induction false} BitsJoin(v: nat, n: nat, w: nat, k: nat)
    requires w < Pow2(k)
    ensures Bits(v * Pow2(k) + w, n + k) == Bits(v, n) + Bits(w, k)
  {
    if k > 0 {
      var y := v * Pow2(k - 1);
      DoubledProduct(v, k);
      BitsJoin(v, n, w / 2, k - 1);
      hide Pow2;
      HalvesJoin(v, n, w, k, y);
    }
  }

  lemma DoubledProduct(v: nat, k: nat)
    requires k > 0
    ensures v * Pow2(k) == 2 * (v * Pow2(k - 1)) && Pow2(k) == 2 * Pow2(k - 1)
  {
    var p := Pow2(k - 1);
    assert v * (2 * p) == 2 * (v * p);
  }

  /** One low bit more; `y` is the high part in front of the other k - 1. */
  lemma HalvesJoin(v: nat, n: nat, w: nat, k: nat, y: nat)
    requires k > 0 && Bits(y + w / 2, n + (k - 1)) == Bits(v, n) + Bits(w / 2, k - 1)
    ensures Bits(2 * y + w, n + k) == Bits(v, n) + Bits(w, k)
  {
    var x := 2 * y + w;
    assert x / 2 == y + w / 2 && x % 2 == w % 2;
    assert Bits(x, n + k) == Bits(x / 2, n + k - 1) + [x % 2 == 1];
    assert Bits(w, k) == Bits(w / 2, k - 1) + [w % 2 == 1];
  }

  lemma GroupBits(a: Byte, b: Byte, c: Byte)
    ensures Bits(a, 8) + Bits(b, 8) + Bits(c, 8) ==
            Bits(a / 4, 6) + Bits(a % 4 * 16 + b / 16, 6) + Bits(b % 16 * 4 + c / 64, 6) + Bits(c % 64, 6)
  {
    hide Bits, Pow2;
    Powers();
    Join(a, a / 4, 6, a % 4, 2);
    Join(a % 4 * 16 + b / 16, a % 4, 2, b / 16, 4);
    Join(b, b / 16, 4, b % 16, 4);
    Join(b % 16 * 4 + c / 64, b % 16, 4, c / 64, 2);
    Join(c, c / 64, 2, c % 64, 6);
    ghost var a1, a0, b1, b0, c1, c0 :=
      Bits(a / 4, 6), Bits(a % 4, 2), Bits(b / 16, 4), Bits(b % 16, 4), Bits(c / 64, 2), Bits(c % 64, 6);
    assert (a1 + a0) + (b1 + b0) + (c1 + c0) == a1 + (a0 + b1) + (b0 + c1) + c0;
  }

  lemma Join(x: nat, v: nat, n: nat, w: nat, k: nat)
    requires w < Pow2(k) && x == v * Pow2(k) + w
    ensures Bits(x, n + k) == Bits(v, n) + Bits(w, k)
  {
    BitsJoin(v, n, w, k);
  }

  lemma Powers()
    ensures Pow2(2) == 4 && Pow2(4) == 16 && Pow2(6) == 64
  {
  }

  lemma {:induction false} EncodeValues(b: seq<Byte>)
    ensures forall i | 0 <= i < |Encode(b)| :: Value(Encode(b)[i]).Some?
  {
    hide Group, Value;
    if |b| == 1 {
      GroupValues(b[0], 0, 0);
    } else if |b| == 2 {
      GroupValues(b[0], b[1], 0);
    } else if |b| >= 3 {
      GroupValues(b[0], b[1], b[2]);
      EncodeValues(b[3..]);
    }
  }

  function Zeros(n: nat): (s: seq<bool>)
    ensures |s| == n && forall i | 0 <= i < n :: !s[i]
  {
    if n == 0 then [] else Zeros(n - 1) + [false]
  }

  lemma {:induction false} ZeroBits(n: nat)
    ensures Bits(0, n) == Zeros(n)
  {
    if n > 0 {
      ZeroBits(n - 1);
    }
  }

  lemma SextetBitsTwo(s: string)
    requires |s| >= 2 && forall i | 0 <= i < |s| :: Value(s[i]).Some?
    ensures SextetBits(s) == Bits(Value(s[0]).value, 6) + Bits(Value(s[1]).value, 6) + SextetBits(s[2..])
  {
    hide Value, Bits;
    assert s[1..][1..] == s[2..];
  }

  /** The characters carry the bits of the octets in order, filled up with zeros to whole sextets. */
  lemma {:induction false} EncodeCarriesBits(b: seq<Byte>)
    ensures (forall i | 0 <= i < |Encode(b)| :: Value(Encode(b)[i]).Some?)
    ensures SextetBits(Encode(b)) == OctetBits(b) + Zeros(2 * Padding(|b|))
  {
    hide Group, Encode, Value, Bits, Zeros, SextetBits, OctetBits, Padding;
    EncodeValues(b);
    if |b| >= 3 {
      EncodeCarriesBits(b[3..]);
      EncodeCarriesGroup(b);
    } else {
      EncodeCarriesEnd(b);
    }
  }

  lemma EncodeCarriesEnd(b: seq<Byte>)
    requires |b| < 3
    requires forall i | 0 <= i < |Encode(b)| :: Value(Encode(b)[i]).Some?
    ensures SextetBits(Encode(b)) == OctetBits(b) + Zeros(2 * Padding(|b|))
  {
    hide Group, Value, Bits, SextetBits, OctetBits;
    if |b| == 0 {
      assert Zeros(0) == [];
      OctetBitsNone();
      assert b == [] && SextetBits("") == [] by { SextetBitsNone(); }
    } else if |b| == 1 {
      hide Zeros;
      GroupValues(b[0], 0, 0);
      SingleCarriesBits(b[0], Encode(b));
      assert b == [b[0]];
    } else {
      hide Zeros;
      GroupValues(b[0], b[1], 0);
      PairCarriesBits(b[0], b[1], Encode(b));
      assert b == [b[0], b[1]];
    }
  }

  lemma SextetBitsNone()
    ensures SextetBits("") == []
  {
  }

  lemma PairCarriesBits(a: Byte, b: Byte, s: string)
    requires |s| == 3 && Value(s[0]) == Some(a / 4) && Value(s[1]) == Some(a % 4 * 16 + b / 16)
    requires Value(s[2]) == Some(b % 16 * 4)
    ensures SextetBits(s) == OctetBits([a, b]) + Zeros(2)
  {
    hide Value, Bits, Zeros, SextetBits, OctetBits;
    PartialBits(a, b);
    SextetBitsThree(s);
    OctetBitsTwo([a, b]);
    assert [a, b][2..] == [];
    assert OctetBits([]) == [] by { OctetBitsNone(); }
  }

  lemma OctetBitsNone()
    ensures OctetBits([]) == []
  {
  }

  lemma SextetBitsThree(s: string)
    requires |s| == 3 && forall i | 0 <= i < |s| :: Value(s[i]).Some?
    ensures SextetBits(s) == Bits(Value(s[0]).value, 6) + Bits(Value(s[1]).value, 6) + Bits(Value(s[2]).value, 6)
  {
    hide Value, Bits;
    SextetBitsTwo(s);
    assert s[2..] == [s[2]] && [s[2]][1..] == "";
    assert SextetBits([s[2]]) == Bits(Value(s[2]).value, 6) + SextetBits("");
  }

  lemma SingleCarriesBits(a: Byte, s: string)
    requires |s| == 2 && Value(s[0]) == Some(a / 4) && Value(s[1]) == Some(a % 4 * 16)
    ensures SextetBits(s) == OctetBits([a]) + Zeros(4)
  {
    hide Value, Bits, Zeros;
    SextetBitsTwo(s);
    assert s[2..] == "" && [a][1..] == [];
    PartialBits(a, 0);
  }

  lemma OctetBitsTwo(b: seq<Byte>)
    requires |b| >= 2
    ensures OctetBits(b) == Bits(b[0], 8) + Bits(b[1], 8) + OctetBits(b[2..])
  {
    hide Bits;
    assert b[1..][1..] == b[2..];
  }

  lemma EncodeCarriesGroup(b: seq<Byte>)
    requires |b| >= 3
    requires forall i | 0 <= i < |Encode(b)| :: Value(Encode(b)[i]).Some?
    requires forall i | 0 <= i < |Encode(b[3..])| :: Value(Encode(b[3..])[i]).Some?
    requires SextetBits(Encode(b[3..])) == OctetBits(b[3..]) + Zeros(2 * Padding(|b[3..]|))
    ensures SextetBits(Encode(b)) == OctetBits(b) + Zeros(2 * Padding(|b|))
  {
    hide Group, Value, Bits, Zeros, SextetBits, OctetBits, Padding, Encode;
    var s := Encode(b);
    EncodeFront(b);
    GroupSextets(b[0], b[1], b[2], s);
    OctetBitsThree(b);
    PaddingPeriod(|b|);
    ghost var o, r, z := Bits(b[0], 8) + Bits(b[1], 8) + Bits(b[2], 8), OctetBits(b[3..]), Zeros(2 * Padding(|b|));
    assert o + (r + z) == (o + r) + z;
  }

  lemma EncodeFront(b: seq<Byte>)
    requires |b| >= 3
    ensures var s := Encode(b);
      |s| >= 4 && s[..4] == Group(b[0], b[1], b[2]) && s[4..] == Encode(b[3..])
  {
    hide Group;
    GroupValues(b[0], b[1], b[2]);
    assert Encode(b) == Group(b[0], b[1], b[2]) + Encode(b[3..]);
  }

  /** The characters of a group in front carry the bits of its three octets. */
  lemma GroupSextets(a: Byte, b: Byte, c: Byte, s: string)
    requires |s| >= 4 && s[..4] == Group(a, b, c) && forall i | 0 <= i < |s| :: Value(s[i]).Some?
    ensures SextetBits(s) == Bits(a, 8) + Bits(b, 8) + Bits(c, 8) + SextetBits(s[4..])
  {
    hide Group, Value, Bits, SextetBits;
    assert s[0] == s[..4][0] && s[1] == s[..4][1] && s[2] == s[..4][2] && s[3] == s[..4][3];
    var v := GroupParts(a, b, c);
    FourSextets(s, v);
  }

  /** The values of the characters at the front. */
  predicate Reads(s: string, v: seq<nat>) {
    |v| <= |s| && forall i | 0 <= i < |v| :: Value(s[i]) == Some(v[i])
  }

  lemma GroupParts(a: Byte, b: Byte, c: Byte) returns (v: seq<nat>)
    ensures |v| == 4 && Reads(Group(a, b, c), v)
    ensures Bits(a, 8) + Bits(b, 8) + Bits(c, 8) == Bits(v[0], 6) + Bits(v[1], 6) + Bits(v[2], 6) + Bits(v[3], 6)
  {
    hide Group, Value, Bits;
    v := [a / 4, a % 4 * 16 + b / 16, b % 16 * 4 + c / 64, c % 64];
    GroupValues(a, b, c);
    GroupBits(a, b, c);
  }

  lemma FourSextets(s: string, v: seq<nat>)
    requires forall i | 0 <= i < |s| :: Value(s[i]).Some?
    requires |v| == 4 && Reads(s, v)
    ensures SextetBits(s) == Bits(v[0], 6) + Bits(v[1], 6) + Bits(v[2], 6) + Bits(v[3], 6) + SextetBits(s[4..])
  {
    hide Value, Bits, SextetBits;
    SextetBitsFour(s);
  }

  lemma PaddingPeriod(n: nat)
    requires n >= 3
    ensures Padding(n) == Padding(n - 3)
  {
  }

  lemma OctetBitsThree(b: seq<Byte>)
    requires |b| >= 3
    ensures OctetBits(b) == Bits(b[0], 8) + Bits(b[1], 8) + Bits(b[2], 8) + OctetBits(b[3..])
  {
    hide Bits, OctetBits;
    OctetBitsTwo(b);
    OctetBitsOne(b[2..]);
    assert b[2..][1..] == b[3..];
    InOneRow(Bits(b[0], 8), Bits(b[1], 8), Bits(b[2], 8), [], OctetBits(b[3..]));
  }

  lemma OctetBitsOne(b: seq<Byte>)
    requires b != []
    ensures OctetBits(b) == Bits(b[0], 8) + OctetBits(b[1..])
  {
  }

  lemma InOneRow(a: seq<bool>, b: seq<bool>, c: seq<bool>, d: seq<bool>, r: seq<bool>)
    ensures a + b + (c + d + r) == a + b + c + d + r
    ensures d == [] ==> a + b + (c + r) == a + b + c + r
  {
  }

  lemma SextetBitsFour(s: string)
    requires |s| >= 4 && forall i | 0 <= i < |s| :: Value(s[i]).Some?
    ensures SextetBits(s) == Bits(Value(s[0]).value, 6) + Bits(Value(s[1]).value, 6) + Bits(Value(s[2]).value, 6)
                             + Bits(Value(s[3]).value, 6) + SextetBits(s[4..])
  {
    hide Value, Bits, SextetBits;
    SextetBitsTwo(s);
    SextetBitsTwo(s[2..]);
    assert s[2..][2..] == s[4..] && s[2..][0] == s[2] && s[2..][1] == s[3];
    InOneRow(Bits(Value(s[0]).value, 6), Bits(Value(s[1]).value, 6), Bits(Value(s[2]).value, 6),
            Bits(Value(s[3]).value, 6), SextetBits(s[4..]));
  }

  lemma PartialBits(a: Byte, b: Byte)
    ensures Bits(a / 4, 6) + Bits(a % 4 * 16, 6) == Bits(a, 8) + Zeros(4)
    ensures Bits(a / 4, 6) + Bits(a % 4 * 16 + b / 16, 6) + Bits(b % 16 * 4, 6) == Bits(a, 8) + Bits(b, 8) + Zeros(2)
  {
    hide Bits, Pow2, Zeros;
    Powers();
    Join(a, a / 4, 6, a % 4, 2);
    Join(a % 4 * 16, a % 4, 2, 0, 4);
    ZeroBits(4);
    Join(a % 4 * 16 + b / 16, a % 4, 2, b / 16, 4);
    Join(b, b / 16, 4, b % 16, 4);
    Join(b % 16 * 4, b % 16, 4, 0, 2);
    ZeroBits(2);
    ghost var a1, a0, b1, b0 := Bits(a / 4, 6), Bits(a % 4, 2), Bits(b / 16, 4), Bits(b % 16, 4);
    assert a1 + (a0 + Zeros(4)) == (a1 + a0) + Zeros(4);
    assert a1 + (a0 + b1) + (b0 + Zeros(2)) == (a1 + a0) + (b1 + b0) + Zeros(2);
  }

  // ----- Hexadecimal -----

  const HEX: string := "0123456789abcdef"

  /** The value of a hexadecimal digit in either case. */
  function Nibble(c: char): (v: Option<nat>)
    ensures v.Some? ==> v.value < 16
  {
    if '0' <= c <= '9' then Some(c as int - '0' as int)
    else if 'a' <= c <= 'f' then Some(c as int - 'a' as int + 10)
    else if 'A' <= c <= 'F' then Some(c as int - 'A' as int + 10)
    else None
  }

  function Lower(c: char): char {
    if 'A' <= c <= 'F' then (c as int + 32) as char else c
  }

  lemma HexDigit(v: nat)
    requires v < 16
    ensures |HEX| == 16 && Nibble(HEX[v]) == Some(v)
  {
  }

  lemma HexOfNibble(c: char)
    requires Nibble(c).Some?
    ensures |HEX| == 16 && HEX[Nibble(c).value] == Lower(c)
  {
  }

  function HexOf(b: seq<Byte>): string {
    if b == [] then ""
    else HexOf(b[..|b| - 1]) + [HEX[b[|b| - 1] / 16], HEX[b[|b| - 1] % 16]]
  }

  method BytesToHex(data: seq<Byte>) returns (out: string)
    ensures out == HexOf(data)
  {
    hide HEX;
    HexDigit(0);
    out := "";
    assert data[..0] == [];
    for i := 0 to |data|
      invariant out == HexOf(data[..i])
    {
      assert data[..i + 1][..i] == data[..i];
      out := out + [HEX[data[i] / 16], HEX[data[i] % 16]];
    }
    assert data[..|data|] == data;
  }

  /** sscanf with "%02x": what it reads at the front of a text; two digits it reads as their value. */
  ghost predicate Scanf(scan: string -> Option<Byte>) {
    forall s: string | |s| >= 2 && Nibble(s[0]).Some? && Nibble(s[1]).Some? ::
      scan(s) == Some(Nibble(s[0]).value * 16 + Nibble(s[1]).value)
  }

  /** What hex_to_bytes reads: pair i by the scan, or what the variable held when the scan fails. */
  function UnhexOf(scan: string -> Option<Byte>, held: nat -> Byte, hex: string, n: nat): (b: seq<Byte>)
    requires 2 * n <= |hex|
    ensures |b| == n
  {
    if n == 0 then []
    else
      UnhexOf(scan, held, hex, n - 1) +
      [match scan(hex[2 * (n - 1)..]) case Some(v) => v case None => held(n - 1)]
  }

  method HexToBytes(scan: string -> Option<Byte>, held: nat -> Byte, hex: string) returns (bytes: seq<Byte>)
    ensures bytes == UnhexOf(scan, held, hex, |hex| / 2)
  {
    bytes := [];
    var i := 0;
    while i + 1 < |hex|
      invariant 0 <= i <= |hex| && i % 2 == 0
      invariant bytes == UnhexOf(scan, held, hex, i / 2)
    {
      var byte: Byte := held(i / 2);
      match scan(hex[i..]) {
        case Some(v) => byte := v;
        case None =>
      }
      bytes := bytes + [byte];
      i := i + 2;
    }
  }

  lemma {:induction false} HexOfAt(b: seq<Byte>, i: nat)
    requires i < |b|
    ensures |HexOf(b)| == 2 * |b| && |HEX| == 16
    ensures HexOf(b)[2 * i] == HEX[b[i] / 16] && HexOf(b)[2 * i + 1] == HEX[b[i] % 16]
  {
    HexDigit(0);
    hide HEX;
    var n := |b| - 1;
    if n > 0 {
      HexOfAt(b[..n], if i < n then i else 0);
    }
  }

  lemma UnhexStep(scan: string -> Option<Byte>, held: nat -> Byte, s: string, n: nat)
    requires Scanf(scan) && 0 < n && 2 * n <= |s| && Nibble(s[2 * n - 2]).Some? && Nibble(s[2 * n - 1]).Some?
    ensures UnhexOf(scan, held, s, n) ==
            UnhexOf(scan, held, s, n - 1) + [Nibble(s[2 * n - 2]).value * 16 + Nibble(s[2 * n - 1]).value]
  {
    hide Nibble;
    var rest := s[2 * (n - 1)..];
    assert rest[0] == s[2 * n - 2] && rest[1] == s[2 * n - 1];
    assert scan(rest) == Some(Nibble(rest[0]).value * 16 + Nibble(rest[1]).value);
  }

  /** Reading the digits gives the octets back, whatever the variable held before each read. */
  lemma {:induction false} UnhexHex(scan: string -> Option<Byte>, held: nat -> Byte, b: seq<Byte>, n: nat)
    requires Scanf(scan) && n <= |b|
    ensures |HexOf(b)| == 2 * |b| && UnhexOf(scan, held, HexOf(b), n) == b[..n]
  {
    hide HEX, Nibble, Scanf, HexOf;
    if b == [] {
      HexOfNone();
    } else if n == 0 {
      HexOfAt(b, 0);
    } else {
      UnhexHex(scan, held, b, n - 1);
      HexOfAt(b, n - 1);
      HexDigit(b[n - 1] / 16);
      HexDigit(b[n - 1] % 16);
      UnhexStep(scan, held, HexOf(b), n);
      assert b[n - 1] / 16 * 16 + b[n - 1] % 16 == b[n - 1];
      assert b[..n] == b[..n - 1] + [b[n - 1]];
    }
  }

  lemma HexOfNone()
    ensures HexOf([]) == ""
  {
  }

  function Lowered(s: string): (r: string)
    ensures |r| == |s| && forall i | 0 <= i < |s| :: r[i] == Lower(s[i])
  {
    if s == "" then "" else Lowered(s[..|s| - 1]) + [Lower(s[|s| - 1])]
  }

  /** Digits read and written again come back in lower case, without an odd last digit. */
  lemma {:induction false} HexUnhex(scan: string -> Option<Byte>, held: nat -> Byte, s: string, n: nat)
    requires Scanf(scan) && 2 * n <= |s| && forall i | 0 <= i < |s| :: Nibble(s[i]).Some?
    ensures HexOf(UnhexOf(scan, held, s, n)) == Lowered(s[..2 * n])
  {
    hide HEX, Nibble, Scanf, Lower, HexOf, Lowered;
    if n > 0 {
      HexUnhex(scan, held, s, n - 1);
      UnhexStep(scan, held, s, n);
      var hi, lo := s[2 * n - 2], s[2 * n - 1];
      HexOfNibble(hi);
      HexOfNibble(lo);
      HexOfSnoc(UnhexOf(scan, held, s, n - 1), Nibble(hi).value * 16 + Nibble(lo).value);
      assert s[..2 * n] == s[..2 * (n - 1)] + [hi, lo];
      LoweredTwo(s[..2 * (n - 1)], hi, lo);
    } else {
      HexOfNone();
      LoweredNone();
    }
  }

  lemma LoweredNone()
    ensures Lowered("") == ""
  {
  }

  lemma LoweredTwo(s: string, c: char, d: char)
    ensures Lowered(s + [c, d]) == Lowered(s) + [Lower(c), Lower(d)]
  {
    hide Lower;
    assert Lowered(s + [c, d]) == Lowered(s) + [Lower(c), Lower(d)];
  }

  lemma HexOfSnoc(b: seq<Byte>, v: Byte)
    ensures |HEX| == 16 && HexOf(b + [v]) == HexOf(b) + [HEX[v / 16], HEX[v % 16]]
  {
    HexDigit(0);
    hide HEX;
    assert (b + [v])[..|b|] == b;
  }
}
