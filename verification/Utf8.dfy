/** Scrubbing malformed UTF-8, against the grammar of section 4 of RFC 3629. */
module Utf8 {
  type Bytes = seq<bv8>

  // ----- The grammar of section 4 of RFC 3629 -----

  predicate Tail(b: bv8) {
    0x80 <= b <= 0xBF
  }

  predicate Utf8One(s: Bytes) {
    |s| == 1 && s[0] <= 0x7F
  }

  predicate Utf8Two(s: Bytes) {
    |s| == 2 && 0xC2 <= s[0] <= 0xDF && Tail(s[1])
  }

  predicate Utf8Three(s: Bytes) {
    |s| == 3 &&
    ((s[0] == 0xE0 && 0xA0 <= s[1] <= 0xBF && Tail(s[2])) ||
     (0xE1 <= s[0] <= 0xEC && Tail(s[1]) && Tail(s[2])) ||
     (s[0] == 0xED && 0x80 <= s[1] <= 0x9F && Tail(s[2])) ||
     (0xEE <= s[0] <= 0xEF && Tail(s[1]) && Tail(s[2])))
  }

  predicate Utf8Four(s: Bytes) {
    |s| == 4 &&
    ((s[0] == 0xF0 && 0x90 <= s[1] <= 0xBF && Tail(s[2]) && Tail(s[3])) ||
     (0xF1 <= s[0] <= 0xF3 && Tail(s[1]) && Tail(s[2]) && Tail(s[3])) ||
     (s[0] == 0xF4 && 0x80 <= s[1] <= 0x8F && Tail(s[2]) && Tail(s[3])))
  }

  predicate Utf8Char(s: Bytes) {
    Utf8One(s) || Utf8Two(s) || Utf8Three(s) || Utf8Four(s)
  }

  /** UTF8-octets: any sequence of UTF8-char. */
  ghost predicate WellFormed(s: Bytes)
    decreases |s|, 1
  {
    s == [] || exists n: nat :: StartsWith(s, n)
  }

  ghost predicate StartsWith(s: Bytes, n: nat)
    decreases |s|, 0
  {
    0 < n <= |s| && Utf8Char(s[..n]) && WellFormed(s[n..])
  }

  /** The length of the character at the front, 0 if there is none. */
  function FrontLength(s: Bytes): (n: nat)
    ensures n <= |s|
    ensures n > 0 ==> Utf8Char(s[..n])
    ensures n == 0 ==> forall k: nat | k <= |s| :: !Utf8Char(s[..k])
  {
    if |s| >= 1 && Utf8One(s[..1]) then 1
    else if |s| >= 2 && Utf8Two(s[..2]) then 2
    else if |s| >= 3 && Utf8Three(s[..3]) then 3
    else if |s| >= 4 && Utf8Four(s[..4]) then 4
    else 0
  }

  /** No character is the beginning of another. */
  lemma FrontUnique(s: Bytes, n: nat)
    requires n <= |s| && Utf8Char(s[..n])
    ensures FrontLength(s) == n
  {
    var k := FrontLength(s);
    assert s[..n][0] == s[0] && s[..k][0] == s[0];
  }

  // ----- The scrubber -----

  const REPLACEMENT: Bytes := [0xEF, 0xBF, 0xBD]

  /** The text with every byte that starts no character replaced. */
  function Repair(s: Bytes): Bytes
    decreases |s|
  {
    if s == [] then []
    else
      var n := FrontLength(s);
      if n > 0 then s[..n] + Repair(s[n..]) else REPLACEMENT + Repair(s[1..])
  }

  predicate IsCont(c: bv8) {
    c & 0xC0 == 0x80
  }

  function Wide(c: bv8): bv32 {
    c as bv32
  }

  /** The code point of a lead byte and its continuation bytes. */
  function CodePoint(lead: bv8, mask: bv8, conts: Bytes): bv32 {
    if conts == [] then Wide(lead & mask)
    else Push(CodePoint(lead, mask, conts[..|conts| - 1]), conts[|conts| - 1])
  }

  function Push(cp: bv32, c: bv8): bv32 {
    (cp << 6) | Wide(c & 0x3F)
  }

  predicate Scalar(cp: bv32, min: bv32) {
    !(cp < min || cp > 0x10FFFF || (cp >= 0xD800 && cp <= 0xDFFF))
  }

  lemma TwoBytes(a: bv8, b: bv8)
    requires a & 0xE0 == 0xC0
    ensures IsCont(b) && Scalar(Push(Wide(a & 0x1F), b), 0x80) <==> Utf8Two([a, b])
  {
  }

  lemma ThreeBytes(a: bv8, b: bv8, c: bv8)
    requires a & 0xF0 == 0xE0
    ensures IsCont(b) && IsCont(c) && Scalar(Push(Push(Wide(a & 0x0F), b), c), 0x800) <==> Utf8Three([a, b, c])
  {
  }

  lemma FourBytes(a: bv8, b: bv8, c: bv8, d: bv8)
    requires a & 0xF8 == 0xF0
    ensures IsCont(b) && IsCont(c) && IsCont(d) && Scalar(Push(Push(Push(Wide(a & 0x07), b), c), d), 0x10000)
            <==> Utf8Four([a, b, c, d])
  {
  }

  /** The lead byte c announces len bytes, with this mask and this least code point. */
  predicate Announces(c: bv8, len: nat, mask: bv8, min: bv32) {
    (len == 2 && mask == 0x1F && min == 0x80 && c & 0xE0 == 0xC0) ||
    (len == 3 && mask == 0x0F && min == 0x800 && c & 0xF0 == 0xE0) ||
    (len == 4 && mask == 0x07 && min == 0x10000 && c & 0xF8 == 0xF0)
  }

  predicate Accepts(t: Bytes, len: nat, mask: bv8, min: bv32)
    requires 2 <= len
  {
    |t| >= len && (forall j | 1 <= j < len :: IsCont(t[j])) && Scalar(CodePoint(t[0], mask, t[1..len]), min)
  }

  /** The lead bytes rule out characters of any other length. */
  lemma LeadLength(t: Bytes, len: nat, mask: bv8, min: bv32)
    requires |t| >= 1 && Announces(t[0], len, mask, min)
    ensures FrontLength(t) == 0 || FrontLength(t) == len
  {
  }

  lemma NoLead(t: Bytes)
    requires |t| >= 1 && !(t[0] < 0x80)
    requires t[0] & 0xE0 != 0xC0 && t[0] & 0xF0 != 0xE0 && t[0] & 0xF8 != 0xF0
    ensures FrontLength(t) == 0
  {
  }

  lemma {:induction false} CodePointOne(a: bv8, mask: bv8, b: bv8)
    ensures CodePoint(a, mask, [b]) == Push(Wide(a & mask), b)
  {
    assert [b][..0] == [];
  }

  lemma AcceptsTwo(t: Bytes)
    requires |t| >= 2 && t[0] & 0xE0 == 0xC0
    ensures Accepts(t, 2, 0x1F, 0x80) <==> Utf8Two(t[..2])
  {
    hide Scalar, IsCont, Push, Wide, Utf8Two, CodePoint;
    assert t[1..2] == [t[1]];
    CodePointOne(t[0], 0x1F, t[1]);
    TwoBytes(t[0], t[1]);
    assert t[..2] == [t[0], t[1]];
  }

  lemma AcceptsThree(t: Bytes)
    requires |t| >= 3 && t[0] & 0xF0 == 0xE0
    ensures Accepts(t, 3, 0x0F, 0x800) <==> Utf8Three(t[..3])
  {
    hide Scalar, IsCont, Push, Wide, Utf8Three, CodePoint;
    assert t[1..3] == [t[1], t[2]];
    CodePointTwo(t[0], 0x0F, t[1], t[2]);
    ThreeBytes(t[0], t[1], t[2]);
    assert t[..3] == [t[0], t[1], t[2]];
  }

  lemma CodePointTwo(a: bv8, mask: bv8, b: bv8, c: bv8)
    ensures CodePoint(a, mask, [b, c]) == Push(Push(Wide(a & mask), b), c)
  {
    hide Push, Wide;
    assert [b, c][..1] == [b];
    CodePointOne(a, mask, b);
  }

  lemma CodePointThree(a: bv8, mask: bv8, b: bv8, c: bv8, d: bv8)
    ensures CodePoint(a, mask, [b, c, d]) == Push(Push(Push(Wide(a & mask), b), c), d)
  {
    hide Push, Wide;
    assert [b, c, d][..2] == [b, c];
    CodePointTwo(a, mask, b, c);
  }

  lemma AcceptsFour(t: Bytes)
    requires |t| >= 4 && t[0] & 0xF8 == 0xF0
    ensures Accepts(t, 4, 0x07, 0x10000) <==> Utf8Four(t[..4])
  {
    hide Scalar, IsCont, Push, Wide, Utf8Four, CodePoint;
    assert t[1..4] == [t[1], t[2], t[3]];
    CodePointThree(t[0], 0x07, t[1], t[2], t[3]);
    FourBytes(t[0], t[1], t[2], t[3]);
    assert t[..4] == [t[0], t[1], t[2], t[3]];
  }

  /** The masks and shifts keep a sequence exactly when the grammar has a character there. */
  lemma AcceptsExact(t: Bytes, len: nat, mask: bv8, min: bv32)
    requires |t| >= 1 && Announces(t[0], len, mask, min)
    ensures FrontLength(t) == if Accepts(t, len, mask, min) then len else 0
  {
    hide Accepts, CodePoint, Scalar;
    LeadLength(t, len, mask, min);
    if |t| < len {
      Truncated(t, len, mask, min);
    } else if len == 2 {
      AcceptsTwo(t);
    } else if len == 3 {
      AcceptsThree(t);
    } else {
      AcceptsFour(t);
    }
    if Accepts(t, len, mask, min) {
      FrontUnique(t, len);
    }
  }

  lemma Kept(s: Bytes, i: nat, n: nat)
    requires i < |s| && FrontLength(s[i..]) == n > 0
    ensures i + n <= |s| && Repair(s[i..]) == s[i..i + n] + Repair(s[i + n..])
  {
    assert s[i..][..n] == s[i..i + n] && s[i..][n..] == s[i + n..];
  }

  lemma Replaced(s: Bytes, i: nat)
    requires i < |s| && FrontLength(s[i..]) == 0
    ensures Repair(s[i..]) == REPLACEMENT + Repair(s[i + 1..])
  {
    assert s[i..][1..] == s[i + 1..];
  }

  /** sanitize_utf8. */
  method SanitizeUtf8(s: Bytes) returns (out: Bytes)
    ensures out == Repair(s)
  {
    hide FrontLength, Repair, CodePoint, Scalar, IsCont, Utf8Char, Accepts;
    out := [];
    var i := 0;
    assert s[0..] == s;
    while i < |s|
      invariant 0 <= i <= |s|
      invariant out + Repair(s[i..]) == Repair(s)
      decreases |s| - i
    {
      var c := s[i];
      ghost var t := s[i..];
      ghost var was := out;
      if c < 0x80 {
        Ascii(t);
        Kept(s, i, 1);
        out := out + [c];
        assert s[i..i + 1] == [c];
        assert was + (([c]) + Repair(s[i + 1..])) == out + Repair(s[i + 1..]);
        i := i + 1;
        continue;
      }
      var len := 0;
      var mask: bv8 := 0;
      var min: bv32 := 0;
      if c & 0xE0 == 0xC0 {
        len, mask, min := 2, 0x1F, 0x80;
      } else if c & 0xF0 == 0xE0 {
        len, mask, min := 3, 0x0F, 0x800;
      } else if c & 0xF8 == 0xF0 {
        len, mask, min := 4, 0x07, 0x10000;
      } else {
        NoLead(t);
        Replaced(s, i);
        out := out + REPLACEMENT;
        assert was + (REPLACEMENT + Repair(s[i + 1..])) == out + Repair(s[i + 1..]);
        i := i + 1;
        continue;
      }
      AcceptsExact(t, len, mask, min);
      if i + len > |s| {
        Truncated(t, len, mask, min);
        Replaced(s, i);
        out := out + REPLACEMENT;
        assert was + (REPLACEMENT + Repair(s[i + 1..])) == out + Repair(s[i + 1..]);
        i := i + 1;
        continue;
      }
      var valid := ValidAt(s, i, len, mask, min);
      if valid {
        Kept(s, i, len);
        out := out + s[i..i + len];
        assert was + (s[i..i + len] + Repair(s[i + len..])) == out + Repair(s[i + len..]);
        i := i + len;
      } else {
        Replaced(s, i);
        out := out + REPLACEMENT;
        assert was + (REPLACEMENT + Repair(s[i + 1..])) == out + Repair(s[i + 1..]);
        i := i + 1;
      }
    }
    assert s[i..] == [];
    RepairEmpty();
  }

  lemma Ascii(t: Bytes)
    requires |t| >= 1 && t[0] < 0x80
    ensures FrontLength(t) == 1
  {
  }

  lemma RepairEmpty()
    ensures Repair([]) == []
  {
  }

  lemma Truncated(t: Bytes, len: nat, mask: bv8, min: bv32)
    requires |t| < len && 2 <= len
    ensures !Accepts(t, len, mask, min)
  {
  }

  lemma CodePointNone(a: bv8, mask: bv8)
    ensures CodePoint(a, mask, []) == Wide(a & mask)
  {
  }

  lemma CodePointSnoc(a: bv8, mask: bv8, conts: Bytes, c: bv8)
    ensures CodePoint(a, mask, conts + [c]) == Push(CodePoint(a, mask, conts), c)
  {
    assert (conts + [c])[..|conts|] == conts;
  }

  /** The decoding loop of sanitize_utf8 with the range check behind it. */
  method ValidAt(s: Bytes, i: nat, len: nat, mask: bv8, min: bv32) returns (valid: bool)
    requires 2 <= len && i + len <= |s|
    ensures valid <==> Accepts(s[i..], len, mask, min)
  {
    hide Scalar, IsCont, Push, CodePoint, Wide;
    ghost var t := s[i..];
    var cp := Wide(s[i] & mask);
    CodePointNone(s[i], mask);
    valid := true;
    var k := 1;
    assert t[1..1] == [];
    while k < len
      invariant 1 <= k <= len && valid
      invariant forall j | 1 <= j < k :: IsCont(t[j])
      invariant cp == CodePoint(s[i], mask, t[1..k])
    {
      var cc := s[i + k];
      if !IsCont(cc) {
        valid := false;
        break;
      }
      CodePointSnoc(s[i], mask, t[1..k], cc);
      assert t[1..k] + [cc] == t[1..k + 1];
      cp := Push(cp, cc);
      k := k + 1;
    }
    if valid && !Scalar(cp, min) {
      valid := false;
    }
  }

  // ----- What the scrubber promises -----

  lemma FrontOfAppend(s: Bytes, r: Bytes)
    requires FrontLength(s) > 0
    ensures FrontLength(s + r) == FrontLength(s)
  {
    var n := FrontLength(s);
    assert (s + r)[..n] == s[..n];
    FrontUnique(s + r, n);
  }

  /** The output is UTF-8, whatever the input. */
  lemma {:induction false} RepairWellFormed(s: Bytes)
    ensures WellFormed(Repair(s))
    decreases |s|
  {
    if s != [] {
      var n := FrontLength(s);
      if n > 0 {
        RepairWellFormed(s[n..]);
        Prepend(s[..n], Repair(s[n..]));
      } else {
        RepairWellFormed(s[1..]);
        Prepend(REPLACEMENT, Repair(s[1..]));
      }
    }
  }

  lemma Prepend(c: Bytes, r: Bytes)
    requires Utf8Char(c) && WellFormed(r)
    ensures WellFormed(c + r)
  {
    assert (c + r)[..|c|] == c && (c + r)[|c|..] == r;
    assert StartsWith(c + r, |c|);
  }

  lemma RepairStep(s: Bytes, n: nat)
    requires 0 < n == FrontLength(s)
    ensures Repair(s) == s[..n] + Repair(s[n..])
  {
  }

  /** Scrubbing a well-formed front leaves it alone and starts afresh behind it. */
  lemma {:induction false} RepairKeepsFront(s: Bytes, r: Bytes)
    requires WellFormed(s)
    ensures Repair(s + r) == s + Repair(r)
    decreases |s|
  {
    hide Repair, FrontLength, Utf8Char;
    if s == [] {
      assert s + r == r;
    } else {
      var n: nat :| StartsWith(s, n);
      FrontUnique(s, n);
      FrontOfAppend(s, r);
      assert (s + r)[..n] == s[..n] && (s + r)[n..] == s[n..] + r;
      RepairStep(s + r, n);
      RepairKeepsFront(s[n..], r);
      assert s[..n] + (s[n..] + Repair(r)) == s + Repair(r);
    }
  }

  /** Exactly the well-formed texts pass through unchanged. */
  lemma RepairFixes(s: Bytes)
    ensures Repair(s) == s <==> WellFormed(s)
  {
    if WellFormed(s) {
      RepairKeepsFront(s, []);
      assert s + [] == s;
    }
    RepairWellFormed(s);
  }

  lemma RepairIdempotent(s: Bytes)
    ensures Repair(Repair(s)) == Repair(s)
  {
    RepairWellFormed(s);
    RepairFixes(Repair(s));
  }

  lemma {:induction false} RepairLength(s: Bytes)
    ensures |s| <= |Repair(s)| <= 3 * |s|
    decreases |s|
  {
    if s != [] {
      var n := FrontLength(s);
      RepairLength(if n > 0 then s[n..] else s[1..]);
    }
  }

  /** The bound is reached: a text of stray continuation bytes triples. */
  lemma {:induction false} StrayBytesTriple(s: Bytes)
    requires forall j | 0 <= j < |s| :: Tail(s[j])
    ensures |Repair(s)| == 3 * |s|
    decreases |s|
  {
    if s != [] {
      NoLead(s);
      StrayBytesTriple(s[1..]);
    }
  }
}
