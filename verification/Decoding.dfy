/** Decoding the bytes of a pipe chunk by chunk, as the host's Buffer.toString does: a
    character is decoded when it is whole, and each maximal beginning of one that stands
    alone becomes one U+FFFD (section 3.9 of the Unicode Standard). */
module Decoding {
  import opened Utf8

  const UNKNOWN: char := '\U{FFFD}'

  /** The first two bytes of a longer character. */
  predicate BegunTwo(p: Bytes) {
    Utf8Three(p + [0x80]) || Utf8Four(p + [0x80, 0x80])
  }

  predicate BegunThree(p: Bytes) {
    Utf8Four(p + [0x80])
  }

  /** How many bytes at a front that is no character are replaced together. */
  function Subpart(s: Bytes): (n: nat)
    requires s != []
    ensures 0 < n <= |s| && (forall k | 0 < k < n :: Tail(s[k])) && (Tail(s[0]) ==> n == 1)
  {
    if |s| >= 3 && BegunThree(s[..3]) then
      assert (s[..3] + [0x80])[0] == s[0] && (s[..3] + [0x80])[1] == s[1] && (s[..3] + [0x80])[2] == s[2];
      3
    else if |s| >= 2 && BegunTwo(s[..2]) then
      assert (s[..2] + [0x80])[0] == s[0] && (s[..2] + [0x80])[1] == s[1];
      assert (s[..2] + [0x80, 0x80])[0] == s[0] && (s[..2] + [0x80, 0x80])[1] == s[1];
      2
    else 1
  }

  /** The text of `s`; `character` is the host's reading of one character. */
  function Decode(character: Bytes -> char, s: Bytes): string
    decreases |s|
  {
    if s == [] then ""
    else
      var n := FrontLength(s);
      if n > 0 then [character(s[..n])] + Decode(character, s[n..]) else [UNKNOWN] + Decode(character, s[Subpart(s)..])
  }

  function Flat(chunks: seq<Bytes>): Bytes {
    if chunks == [] then [] else Flat(chunks[..|chunks| - 1]) + chunks[|chunks| - 1]
  }

  function DecodeEach(character: Bytes -> char, chunks: seq<Bytes>): (texts: seq<string>)
    ensures |texts| == |chunks|
  {
    seq(|chunks|, i requires 0 <= i < |chunks| => Decode(character, chunks[i]))
  }

  function Joined(texts: seq<string>): string {
    if texts == [] then "" else Joined(texts[..|texts| - 1]) + texts[|texts| - 1]
  }

  ghost predicate EachWellFormed(chunks: seq<Bytes>) {
    forall i | 0 <= i < |chunks| :: WellFormed(chunks[i])
  }

  // ----- Well-formed pieces -----

  /** A well-formed front decodes by itself. */
  lemma {:induction false} DecodeFront(character: Bytes -> char, s: Bytes, r: Bytes)
    requires WellFormed(s)
    ensures WellFormed(r) ==> WellFormed(s + r)
    ensures Decode(character, s + r) == Decode(character, s) + Decode(character, r)
    decreases |s|
  {
    hide FrontLength, Utf8Char, Subpart;
    if s == [] {
      assert s + r == r;
    } else {
      var n: nat :| StartsWith(s, n);
      FrontUnique(s, n);
      FrontOfAppend(s, r);
      assert (s + r)[..n] == s[..n] && (s + r)[n..] == s[n..] + r;
      DecodeFront(character, s[n..], r);
      if WellFormed(r) { Prepend(s[..n], s[n..] + r); }
      assert s[..n] + (s[n..] + r) == s + r;
    }
  }

  lemma DecodeEachFront(character: Bytes -> char, chunks: seq<Bytes>)
    requires chunks != []
    ensures var n := |chunks| - 1;
      DecodeEach(character, chunks)[..n] == DecodeEach(character, chunks[..n]) &&
      DecodeEach(character, chunks)[n] == Decode(character, chunks[n])
  {
  }

  lemma {:induction false} WellFormedJoins(character: Bytes -> char, chunks: seq<Bytes>)
    requires EachWellFormed(chunks)
    ensures WellFormed(Flat(chunks)) && Joined(DecodeEach(character, chunks)) == Decode(character, Flat(chunks))
  {
    hide Decode, WellFormed;
    if chunks == [] {
      EmptyDecodes(character);
    } else {
      var n := |chunks| - 1;
      WellFormedJoins(character, chunks[..n]);
      DecodeEachFront(character, chunks);
      DecodeFront(character, Flat(chunks[..n]), chunks[n]);
    }
  }

  lemma EmptyDecodes(character: Bytes -> char)
    ensures WellFormed([]) && Decode(character, []) == ""
  {
  }

  // ----- Counting characters -----

  /** The bytes that are no continuation: one for each character. */
  function Leads(s: Bytes): nat {
    if s == [] then 0 else (if Tail(s[0]) then 0 else 1) + Leads(s[1..])
  }

  lemma {:induction false} LeadsAppend(a: Bytes, b: Bytes)
    ensures Leads(a + b) == Leads(a) + Leads(b)
  {
    if a == [] {
      assert a + b == b;
    } else {
      LeadsAppend(a[1..], b);
      assert (a + b)[1..] == a[1..] + b;
    }
  }

  lemma {:induction false} LeadsNone(s: Bytes)
    requires forall k | 0 <= k < |s| :: Tail(s[k])
    ensures Leads(s) == 0
  {
    if s != [] { LeadsNone(s[1..]); }
  }

  /** A first byte with only continuations behind it. */
  lemma LeadsFront(s: Bytes, n: nat)
    requires 0 < n <= |s| && forall k | 0 < k < n :: Tail(s[k])
    ensures Leads(s) == (if Tail(s[0]) then 0 else 1) + Leads(s[n..])
  {
    LeadsNone(s[1..n]);
    LeadsAppend(s[1..n], s[n..]);
    assert s[1..] == s[1..n] + s[n..];
  }

  lemma CharacterShape(c: Bytes)
    requires Utf8Char(c)
    ensures c != [] && !Tail(c[0]) && forall k | 0 < k < |c| :: Tail(c[k])
  {
  }

  lemma FrontShape(s: Bytes)
    requires FrontLength(s) > 0
    ensures !Tail(s[0]) && forall k | 0 < k < FrontLength(s) :: Tail(s[k])
  {
    var n := FrontLength(s);
    CharacterShape(s[..n]);
    hide FrontLength;
    assert s[..n][0] == s[0];
    forall k | 0 < k < n ensures Tail(s[k]) {
      assert s[..n][k] == s[k];
    }
  }

  /** Decoding gives a character for every lead, and one more for a continuation in front. */
  lemma {:induction false} DecodeCounts(character: Bytes -> char, s: Bytes)
    ensures |Decode(character, s)| >= Leads(s) + (if s != [] && Tail(s[0]) then 1 else 0)
    ensures WellFormed(s) ==> |Decode(character, s)| == Leads(s)
    decreases |s|
  {
    hide FrontLength, Subpart, Leads, Tail, Utf8Char;
    if s == [] {
      LeadsNone(s);
    } else {
      var n := FrontLength(s);
      if WellFormed(s) { FrontOfWellFormed(s); }
      if n > 0 {
        FrontShape(s);
        LeadsFront(s, n);
        DecodeCounts(character, s[n..]);
      } else {
        LeadsFront(s, Subpart(s));
        DecodeCounts(character, s[Subpart(s)..]);
      }
    }
  }

  lemma FrontOfWellFormed(s: Bytes)
    requires WellFormed(s) && s != []
    ensures FrontLength(s) > 0 && WellFormed(s[FrontLength(s)..])
  {
    var n: nat :| StartsWith(s, n);
    FrontUnique(s, n);
  }

  /** A well-formed text is well formed on both sides of a cut before a lead. */
  lemma {:induction false} CutBeforeLead(a: Bytes, b: Bytes)
    requires WellFormed(a + b) && (b == [] || !Tail(b[0]))
    ensures WellFormed(a) && WellFormed(b)
    decreases |a|
  {
    hide FrontLength, Utf8Char;
    var s := a + b;
    if b == [] {
      assert s == a;
    } else if a == [] {
      assert s == b;
    } else {
      FrontOfWellFormed(s);
      FrontShape(s);
      var n := FrontLength(s);
      assert s[|a|] == b[0];
      assert s[n..] == a[n..] + b && s[..n] == a[..n];
      CutBeforeLead(a[n..], b);
      Prepend(a[..n], a[n..]);
      assert a == a[..n] + a[n..];
    }
  }

  predicate StartsInside(chunk: Bytes) {
    chunk != [] && Tail(chunk[0])
  }

  lemma {:induction false} NoneInside(chunks: seq<Bytes>)
    requires WellFormed(Flat(chunks)) && forall i | 0 <= i < |chunks| :: !StartsInside(chunks[i])
    ensures EachWellFormed(chunks)
  {
    hide WellFormed;
    if chunks != [] {
      var n := |chunks| - 1;
      CutBeforeLead(Flat(chunks[..n]), chunks[n]);
      NoneInside(chunks[..n]);
      assert forall i | 0 <= i < n :: chunks[..n][i] == chunks[i];
    }
  }

  lemma {:induction false} JoinedCounts(character: Bytes -> char, chunks: seq<Bytes>)
    ensures |Joined(DecodeEach(character, chunks))| >=
      Leads(Flat(chunks)) + (if exists i | 0 <= i < |chunks| :: StartsInside(chunks[i]) then 1 else 0)
  {
    hide Leads, Decode, Tail;
    if chunks == [] {
      LeadsNone([]);
    } else {
      var n := |chunks| - 1;
      JoinedCounts(character, chunks[..n]);
      DecodeEachFront(character, chunks);
      DecodeCounts(character, chunks[n]);
      LeadsAppend(Flat(chunks[..n]), chunks[n]);
      if i :| 0 <= i < n && StartsInside(chunks[i]) {
        assert chunks[..n][i] == chunks[i];
      }
    }
  }

  /** Decoding chunk by chunk gives the text of the whole exactly when every chunk is
      well formed by itself: a cut inside a character gives more characters. */
  lemma DecodedExactly(character: Bytes -> char, chunks: seq<Bytes>)
    requires WellFormed(Flat(chunks))
    ensures Joined(DecodeEach(character, chunks)) == Decode(character, Flat(chunks)) <==> EachWellFormed(chunks)
  {
    hide Decode, WellFormed, Leads, StartsInside;
    if EachWellFormed(chunks) {
      WellFormedJoins(character, chunks);
    } else {
      if forall i | 0 <= i < |chunks| :: !StartsInside(chunks[i]) { NoneInside(chunks); }
      JoinedCounts(character, chunks);
      DecodeCounts(character, Flat(chunks));
    }
  }
}
