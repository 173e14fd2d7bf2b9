/** Removing what is not conversation: a model's thinking from its answer, and
    injected annotations from the front of a user's message. */
module Strippers {
  import opened Wrappers
  import opened Text

  const OPEN := "<think>"
  const CLOSE := "</think>"
  const PREAMBLE := "Thinking Process:"
  const BLANK_LINE := "\n\n"

  // ----- Thinking -----

  /** Erases block after block; an unterminated one goes to the end. */
  function DropTags(s: string): string
    decreases |s|
  {
    match Find(s, OPEN, 0)
    case None => s
    case Some(open) =>
      match Find(s, CLOSE, open)
      case None => DropTags(s[..open])
      case Some(close) => DropTags(s[..open] + s[close + 8..])
  }

  function RFind(s: string, p: string, upTo: nat): (r: Option<nat>)
    ensures r.Some? ==> r.value <= upTo && At(s, p, r.value) && forall j | r.value < j <= upTo :: !At(s, p, j)
    ensures r.None? ==> forall j: nat | j <= upTo :: !At(s, p, j)
  {
    if At(s, p, upTo) then Some(upTo) else if upTo == 0 then None else RFind(s, p, upTo - 1)
  }

  /** Drops a bare preamble up to and including the last blank line. */
  function CutPreamble(s: string): string {
    var start := |s| - |LTrim(s)|;
    if At(s, PREAMBLE, start) then
      var blank := RFind(s, BLANK_LINE, |s|);
      if blank.Some? && blank.value > start then s[blank.value + 2..] else s
    else s
  }

  function Stripped(s: string): string {
    LTrim(CutPreamble(DropTags(s)))
  }

  method StripTags(s: string) returns (out: string)
    ensures out == DropTags(s)
  {
    hide Find, At;
    out := s;
    while true
      invariant DropTags(out) == DropTags(s)
      decreases |out|
    {
      var open := Find(out, OPEN, 0);
      if open.None? { break; }
      var close := Find(out, CLOSE, open.value);
      FoundInside(out, OPEN, 0);
      FoundInside(out, CLOSE, open.value);
      if close.None? {
        out := out[..open.value];
      } else {
        out := out[..open.value] + out[close.value + 8..];
      }
    }
  }

  lemma FoundInside(s: string, p: string, from: nat)
    ensures var r := Find(s, p, from); r.Some? ==> r.value + |p| <= |s|
  {
  }

  lemma PreambleInside(s: string, i: nat)
    ensures At(s, PREAMBLE, i) ==> i < |s|
  {
  }

  method CutBarePreamble(s: string) returns (out: string)
    ensures out == CutPreamble(s)
  {
    hide LTrim, RFind, At;
    out := s;
    var start := |out| - |LTrim(out)|;
    PreambleInside(out, start);
    if start < |out| && At(out, PREAMBLE, start) {
      var blank := RFind(out, BLANK_LINE, |out|);
      if blank.Some? && blank.value > start {
        InBounds(out, BLANK_LINE, blank.value);
        out := out[blank.value + 2..];
      }
    }
  }

  method StripThinking(s: string) returns (out: string)
    ensures out == Stripped(s)
  {
    hide DropTags, CutPreamble, LTrim;
    out := StripTags(s);
    out := CutBarePreamble(out);
    var first := |out| - |LTrim(out)|;
    if first < |out| {
      if first > 0 { out := out[first..]; }
    } else {
      out := "";
    }
  }

  lemma AtTail(s: string, p: string, k: nat, i: nat)
    requires k <= |s|
    ensures At(s[k..], p, i) <==> At(s, p, k + i)
  {
    if k + i + |p| <= |s| { assert s[k..][i..i + |p|] == s[k + i..k + i + |p|]; }
  }

  lemma TailHolds(s: string, p: string, k: nat)
    requires k <= |s| && Holds(s[k..], p)
    ensures Holds(s, p)
  {
    var i :| At(s[k..], p, i);
    AtTail(s, p, k, i);
  }

  lemma {:induction false} DropTagsClean(s: string)
    ensures !Holds(DropTags(s), OPEN)
    decreases |s|
  {
    var open := Find(s, OPEN, 0);
    if open.Some? {
      var close := Find(s, CLOSE, open.value);
      if close.None? { DropTagsClean(s[..open.value]); }
      else { DropTagsClean(s[..open.value] + s[close.value + 8..]); }
    }
  }

  /** Which texts the first rewriting step leaves alone. */
  lemma DropTagsFixed(s: string)
    ensures DropTags(s) == s <==> !Holds(s, OPEN)
  {
    DropTagsClean(s);
    if !Holds(s, OPEN) { assert Find(s, OPEN, 0).None?; }
  }

  ghost predicate Settled(s: string) {
    && !Holds(s, OPEN)
    && (s != "" ==> !IsSpace(s[0]))
    && !(At(s, PREAMBLE, 0) && Holds(s, BLANK_LINE))
  }

  lemma CutTail(s: string)
    ensures exists k | 0 <= k <= |s| :: CutPreamble(s) == s[k..]
  {
    assert s[0..] == s;
  }

  /** After a cut at the last blank line no blank line is left. */
  lemma NoneAfterLast(s: string, p: string, k: nat)
    requires var last := RFind(s, p, |s|); last.Some? && last.value < k <= |s|
    ensures !Holds(s[k..], p)
  {
    hide RFind, At;
    if i: nat :| At(s[k..], p, i) {
      AtTail(s, p, k, i);
      InBounds(s, p, k + i);
      assert false;
    }
  }

  lemma InBounds(s: string, p: string, i: nat)
    requires At(s, p, i)
    ensures i + |p| <= |s|
  {
  }

  /** A preamble left standing has no blank line after its own first letter. */
  lemma UncutHasNoBlankLine(s: string)
    requires At(s, PREAMBLE, |s| - |LTrim(s)|) && CutPreamble(s) == s
    ensures !Holds(LTrim(s), BLANK_LINE)
  {
    hide LTrim, RFind;
    var t := LTrim(s);
    var start := |s| - |t|;
    if j: nat :| At(t, BLANK_LINE, j) {
      AtTail(s, BLANK_LINE, start, j);
      assert false;
    }
  }

  lemma CutLeavesNoBlankLine(s: string)
    requires At(LTrim(CutPreamble(s)), PREAMBLE, 0)
    ensures !Holds(LTrim(CutPreamble(s)), BLANK_LINE)
  {
    hide LTrim, RFind, At;
    var c := CutPreamble(s);
    var t := LTrim(c);
    if c == s {
      AtTail(s, PREAMBLE, |s| - |t|, 0);
      UncutHasNoBlankLine(s);
    } else {
      var blank := RFind(s, BLANK_LINE, |s|).value;
      InBounds(s, BLANK_LINE, blank);
      NoneAfterLast(s, BLANK_LINE, blank + 2);
      if Holds(t, BLANK_LINE) { TailHolds(c, BLANK_LINE, |c| - |t|); }
    }
  }

  /** The answer holds no opening tag, even when an erasure joined two halves of
      one, has no leading blank and no preamble left to cut. */
  lemma StrippedSettles(s: string)
    ensures Settled(Stripped(s))
  {
    hide DropTags, CutPreamble, At, Holds;
    var d := DropTags(s);
    DropTagsClean(s);
    NoTagBehind(d);
    if At(Stripped(s), PREAMBLE, 0) { CutLeavesNoBlankLine(d); }
  }

  lemma NoTagBehind(d: string)
    requires !Holds(d, OPEN)
    ensures !Holds(LTrim(CutPreamble(d)), OPEN)
  {
    hide CutPreamble, LTrim, Holds, At;
    CutTail(d);
    var k :| 0 <= k <= |d| && CutPreamble(d) == d[k..];
    TailClean(d, OPEN, k);
    TrimClean(CutPreamble(d), OPEN);
  }

  lemma TailClean(s: string, p: string, k: nat)
    requires k <= |s| && !Holds(s, p)
    ensures !Holds(s[k..], p)
  {
    hide Holds, At;
    if Holds(s[k..], p) {
      TailHolds(s, p, k);
    }
  }

  lemma TrimClean(s: string, p: string)
    requires !Holds(s, p)
    ensures !Holds(LTrim(s), p)
  {
    hide Holds, At;
    TailClean(s, p, |s| - |LTrim(s)|);
  }

  /** Exactly the settled texts are left unchanged. */
  lemma StrippedFixed(s: string)
    ensures Stripped(s) == s <==> Settled(s)
  {
    hide Settled, DropTags, CutPreamble, LTrim;
    StrippedSettles(s);
    if Settled(s) {
      NoTagsIfSettled(s);
      CutSettled(s);
    }
  }

  lemma NoTagsIfSettled(s: string)
    requires Settled(s)
    ensures DropTags(s) == s
  {
    hide DropTags;
    DropTagsFixed(s);
  }

  lemma CutSettled(s: string)
    requires Settled(s)
    ensures CutPreamble(s) == s && LTrim(s) == s
  {
    hide RFind, At;
    assert LTrim(s) == s;
    var blank := RFind(s, BLANK_LINE, |s|);
    if blank.Some? {
      assert At(s, BLANK_LINE, blank.value);
    }
  }

  lemma StripThinkingIdempotent(s: string)
    ensures Stripped(Stripped(s)) == Stripped(s)
  {
    StrippedSettles(s);
    StrippedFixed(Stripped(s));
  }

  /** A first block goes from its tag to the first closing tag, and no further. */
  lemma DropsFirstBlock(s: string, open: nat, close: nat)
    requires At(s, OPEN, open) && forall j: nat | j < open :: !At(s, OPEN, j)
    requires open <= close && At(s, CLOSE, close) && forall j | open <= j < close :: !At(s, CLOSE, j)
    ensures DropTags(s) == DropTags(s[..open] + s[close + |CLOSE|..])
  {
    hide At, Find;
    FindIs(s, OPEN, 0, open);
    FindIs(s, CLOSE, open, close);
    InBounds(s, CLOSE, close);
    assert |CLOSE| == 8;
  }

  lemma AtFront(s: string, p: string, k: nat, j: nat)
    requires k <= |s| && p != ""
    ensures At(s[..k], p, j) ==> At(s, p, j) && j < k
  {
    if j + |p| <= k { assert s[..k][j..j + |p|] == s[j..j + |p|]; }
  }

  /** A first block without a closing tag takes everything behind it along. */
  lemma DropsUnterminated(s: string, open: nat)
    requires At(s, OPEN, open) && forall j: nat | j < open :: !At(s, OPEN, j)
    requires forall j: nat | open <= j :: !At(s, CLOSE, j)
    ensures DropTags(s) == s[..open]
  {
    FindIs(s, OPEN, 0, open);
    assert Find(s, CLOSE, open).None?;
    forall j: nat ensures !At(s[..open], OPEN, j) {
      AtFront(s, OPEN, open, j);
    }
    assert Find(s[..open], OPEN, 0).None?;
  }

  /** A preamble goes up to and with the last blank line, wherever others stand. */
  lemma PreambleGoes(s: string, a: nat, blank: nat)
    requires a <= |s| && (forall i | 0 <= i < a :: IsSpace(s[i])) && At(s, "Thinking Process:", a)
    requires a < blank && At(s, "\n\n", blank) && forall j: nat | blank < j :: !At(s, "\n\n", j)
    ensures CutPreamble(s) == s[blank + 2..]
  {
    var start := |s| - |LTrim(s)|;
    assert s[a] == 'T' by { assert s[a..a + |PREAMBLE|][0] == 'T'; }
    assert start == a;
  }

  lemma FindIs(s: string, p: string, from: nat, i: nat)
    requires from <= i && At(s, p, i) && forall j | from <= j < i :: !At(s, p, j)
    ensures Find(s, p, from) == Some(i)
  {
    hide At;
  }

  // ----- Injected annotations -----

  const MARKERS: seq<string> :=
    ["[System note:", "[Note: model was just switched", "[CONTEXT COMPACTION", "[IMPORTANT: Background process"]

  const COMPACTION := 2
  const COMPACTION_END := "END OF CONTEXT SUMMARY"

  predicate IsCompaction(body: string) {
    MARKERS[COMPACTION] <= body
  }

  predicate HasMarker(body: string) {
    exists k | 0 <= k < |MARKERS| :: MARKERS[k] <= body
  }

  lemma OneMarker(body: string, j: nat, k: nat)
    requires j < |MARKERS| && k < |MARKERS| && MARKERS[j] <= body && MARKERS[k] <= body
    ensures j == k
  {
    SecondLetter(j);
    SecondLetter(k);
    assert MARKERS[j][1] == body[1] && MARKERS[k][1] == body[1];
  }

  /** The markers differ in their second character. */
  lemma SecondLetter(k: nat)
    requires k < |MARKERS|
    ensures |MARKERS| == 4 && |MARKERS[k]| > 1 && MARKERS[k][1] == "SNCI"[k]
  {
    assert MARKERS[0][1] == 'S' && MARKERS[1][1] == 'N' && MARKERS[2][1] == 'C' && MARKERS[3][1] == 'I';
  }

  method LeadingMarker(body: string) returns (idx: int)
    ensures -1 <= idx < |MARKERS|
    ensures idx == -1 <==> !HasMarker(body)
    ensures idx >= 0 ==> MARKERS[idx] <= body
    ensures idx == COMPACTION <==> IsCompaction(body)
  {
    for k := 0 to |MARKERS|
      invariant forall j | 0 <= j < k :: !(MARKERS[j] <= body)
    {
      if MARKERS[k] <= body {
        if MARKERS[COMPACTION] <= body { OneMarker(body, k, COMPACTION); }
        return k;
      }
    }
    return -1;
  }

  predicate IsSystemInjectedTurn(user: string) {
    HasMarker(LTrim(user))
  }

  /** One of the annotations a session's user messages can open with. */
  predicate Annotation(s: string) {
    "[System note:" <= s || "[Note: model was just switched" <= s || "[CONTEXT COMPACTION" <= s ||
    "[IMPORTANT: Background process" <= s
  }

  predicate AnnotatedAt(user: string, k: nat) {
    k <= |user| && (forall i | 0 <= i < k :: user[i] == ' ' || user[i] == '\t' || user[i] == '\n' || user[i] == '\r') &&
    Annotation(user[k..])
  }

  /** A turn is injected exactly when, behind blanks, it opens with an annotation. */
  lemma InjectedExactly(user: string)
    ensures IsSystemInjectedTurn(user) <==> exists k: nat :: AnnotatedAt(user, k)
  {
    var n := |user| - |LTrim(user)|;
    MarkersListed(LTrim(user));
    hide HasMarker, LTrim;
    if k: nat :| AnnotatedAt(user, k) {
      assert user[k..][0] == '[';
      assert user[k] == '[' && k == n;
    }
    if HasMarker(LTrim(user)) { assert AnnotatedAt(user, n); }
  }

  lemma MarkersListed(s: string)
    ensures HasMarker(s) <==> Annotation(s)
  {
    assert MARKERS[0] == "[System note:" && MARKERS[1] == "[Note: model was just switched";
    assert MARKERS[2] == "[CONTEXT COMPACTION" && MARKERS[3] == "[IMPORTANT: Background process";
  }

  /** Opening minus closing brackets in the first `i` characters. */
  function Depth(body: string, i: nat): int
    requires i <= |body|
  {
    if i == 0 then 0
    else Depth(body, i - 1) + if body[i - 1] == '[' then 1 else if body[i - 1] == ']' then -1 else 0
  }

  predicate Balances(body: string, i: nat) {
    i < |body| && body[i] == ']' && Depth(body, i + 1) == 0
  }

  /** The first closing bracket at which the brackets balance. */
  function CloseFrom(body: string, i: nat): (r: Option<nat>)
    requires i <= |body|
    ensures r.Some? ==> i <= r.value && Balances(body, r.value) && forall j | i <= j < r.value :: !Balances(body, j)
    ensures r.None? ==> forall j | i <= j :: !Balances(body, j)
    decreases |body| - i
  {
    if i == |body| then None else if Balances(body, i) then Some(i) else CloseFrom(body, i + 1)
  }

  method FindClose(body: string) returns (close: Option<nat>)
    ensures close == CloseFrom(body, 0)
  {
    var depth := 0;
    for i := 0 to |body|
      invariant depth == Depth(body, i)
      invariant forall j: nat | j < i :: !Balances(body, j)
    {
      if body[i] == '[' {
        depth := depth + 1;
      } else if body[i] == ']' {
        depth := depth - 1;
        if depth == 0 {
          assert Balances(body, i);
          return Some(i);
        }
      }
    }
    return None;
  }

  /** Where the annotation block at the front of `body` ends. */
  function BlockEnd(body: string): (r: Option<nat>)
    requires HasMarker(body)
    ensures r.Some? ==> 0 < r.value <= |body|
  {
    if IsCompaction(body) then
      match Find(body, COMPACTION_END, 0)
      case None => None
      case Some(e) =>
        match Find(body, "\n", e)
        case None => Some(|body|)
        case Some(eol) => Some(eol + 1)
    else
      match CloseFrom(body, 0)
      case None => None
      case Some(close) => Some(close + 1)
  }

  function Peel(body: string): string
    decreases |body|
  {
    if !HasMarker(body) then body
    else
      match BlockEnd(body)
      case None => ""
      case Some(end) => Peel(LTrim(body[end..]))
  }

  lemma EmptyPeels()
    ensures LTrim("") == "" && Peel("") == ""
  {
    NoMarker("");
  }

  method StripSystemInjectedPrefix(user: string) returns (body: string)
    ensures body == Peel(LTrim(user))
  {
    hide LTrim, HasMarker, Peel, BlockEnd;
    body := LTrim(user);
    EmptyPeels();
    while true
      invariant Peel(body) == Peel(LTrim(user))
      decreases |body|
    {
      PeelStep(body);
      var idx := LeadingMarker(body);
      if idx < 0 { break; }
      var end := FindBlockEnd(body, idx);
      if end.None? { return ""; }
      body := LTrim(body[end.value..]);
    }
  }

  lemma PeelStep(body: string)
    ensures !HasMarker(body) ==> Peel(body) == body
    ensures HasMarker(body) ==>
      Peel(body) == match BlockEnd(body) case None => "" case Some(end) => Peel(LTrim(body[end..]))
  {
  }

  method FindBlockEnd(body: string, idx: nat) returns (end: Option<nat>)
    requires HasMarker(body) && (idx == COMPACTION <==> IsCompaction(body))
    ensures end == BlockEnd(body)
  {
    hide Find, CloseFrom, HasMarker, IsCompaction;
    if idx == COMPACTION {
      var e := Find(body, COMPACTION_END, 0);
      if e.None? { return None; }
      var eol := Find(body, "\n", e.value);
      return if eol.None? then Some(|body|) else Some(eol.value + 1);
    }
    var close := FindClose(body);
    return if close.None? then None else Some(close.value + 1);
  }

  ghost predicate SuffixOf(r: string, s: string) {
    |r| <= |s| && r == s[|s| - |r|..]
  }

  lemma TrimTwice(s: string)
    ensures LTrim(LTrim(s)) == LTrim(s)
  {
  }

  lemma NoMarker(s: string)
    requires s == ""
    ensures !HasMarker(s)
  {
    forall k | 0 <= k < |MARKERS| ensures !(MARKERS[k] <= s) {
      assert |MARKERS[k]| > 0;
    }
  }

  /** What is left is a suffix of the message, is never itself classified as
      injected, and starts with no blank. */
  lemma {:induction false} PeelResult(body: string)
    requires LTrim(body) == body
    ensures var r := Peel(body);
      SuffixOf(r, body) && LTrim(r) == r && !HasMarker(r)
    decreases |body|
  {
    hide LTrim, HasMarker, BlockEnd, MARKERS, SuffixOf;
    TrimTwice("");
    NoMarker("");
    EndsAreSuffixes(body);
    if HasMarker(body) {
      var end := BlockEnd(body);
      if end.Some? {
        var rest := LTrim(body[end.value..]);
        RestIsSuffix(body, end.value);
        TrimTwice(body[end.value..]);
        PeelResult(rest);
        SuffixOfSuffix(body, rest, Peel(rest));
      }
    }
  }

  lemma EndsAreSuffixes(body: string)
    ensures SuffixOf("", body) && SuffixOf(body, body)
  {
  }

  lemma RestIsSuffix(body: string, end: nat)
    requires end <= |body|
    ensures SuffixOf(LTrim(body[end..]), body)
  {
    hide LTrim;
  }

  lemma SuffixOfSuffix(a: string, b: string, c: string)
    requires SuffixOf(b, a) && SuffixOf(c, b)
    ensures SuffixOf(c, a)
  {
  }

  lemma PeelDone(body: string)
    requires !HasMarker(body)
    ensures Peel(body) == body
  {
  }

  lemma StripPrefixPromises(user: string)
    ensures var r := Peel(LTrim(user));
      && SuffixOf(r, user)
      && !IsSystemInjectedTurn(r)
      && Peel(LTrim(r)) == r
  {
    hide LTrim, HasMarker, Peel, MARKERS;
    assert SuffixOf(LTrim(user), user);
    hide SuffixOf;
    TrimTwice(user);
    PeelResult(LTrim(user));
    PeelDone(Peel(LTrim(user)));
    SuffixOfSuffix(user, LTrim(user), Peel(LTrim(user)));
  }

  lemma MarkerOpens(body: string)
    requires HasMarker(body)
    ensures body != "" && body[0] == '['
  {
    var k :| 0 <= k < |MARKERS| && MARKERS[k] <= body;
    assert MARKERS[k][0] == '[';
  }

  lemma {:induction false} DepthPositive(body: string, i: nat, end: nat)
    requires body != "" && body[0] == '[' && CloseFrom(body, 0) == Some(end) && 1 <= i <= end
    ensures Depth(body, i) >= 1
  {
    if i > 1 {
      DepthPositive(body, i - 1, end);
      assert !Balances(body, i - 1);
    }
  }

  /** A bracket block ends at the first position where its own opening bracket
      is matched: inside it the brackets stay open throughout. */
  lemma BlockIsBalanced(body: string)
    requires HasMarker(body) && !IsCompaction(body) && BlockEnd(body).Some?
    ensures var end := BlockEnd(body).value;
      Depth(body, end) == 0 && body[end - 1] == ']' && forall i | 1 <= i < end :: Depth(body, i) >= 1
  {
    var end := BlockEnd(body).value;
    MarkerOpens(body);
    hide MARKERS, HasMarker;
    forall i | 1 <= i < end ensures Depth(body, i) >= 1 {
      DepthPositive(body, i, end - 1);
    }
  }

  /** A compaction block ends behind the line that holds its closing words, with the text
      when that line is the last, and nowhere without them. */
  lemma CompactionEnds(body: string, words: nat, eol: nat)
    requires HasMarker(body) && "[CONTEXT COMPACTION" <= body
    ensures (forall j: nat :: !At(body, "END OF CONTEXT SUMMARY", j)) ==> BlockEnd(body).None?
    ensures (At(body, "END OF CONTEXT SUMMARY", words) &&
             forall j: nat | j < words :: !At(body, "END OF CONTEXT SUMMARY", j)) ==>
      && ((forall j: nat | words <= j :: !At(body, "\n", j)) ==> BlockEnd(body) == Some(|body|))
      && (words <= eol && At(body, "\n", eol) && (forall j | words <= j < eol :: !At(body, "\n", j)) ==>
            BlockEnd(body) == Some(eol + 1))
  {
    hide At, Find, HasMarker;
    assert IsCompaction(body);
    if At(body, "END OF CONTEXT SUMMARY", words) &&
       forall j: nat | j < words :: !At(body, "END OF CONTEXT SUMMARY", j) {
      FindIs(body, "END OF CONTEXT SUMMARY", 0, words);
      if words <= eol && At(body, "\n", eol) && forall j | words <= j < eol :: !At(body, "\n", j) {
        FindIs(body, "\n", words, eol);
      }
    }
  }

  // ----- What is removed from the front -----

  /** From a to b there are only blanks. */
  predicate Blanks(s: string, a: nat, b: nat) {
    a <= b <= |s| && forall i | a <= i < b :: IsSpace(s[i])
  }

  /** From a to e stands one block: it opens with a marker and ends where its kind ends. */
  ghost predicate BlockAt(s: string, a: nat, e: nat) {
    a < e <= |s| && HasMarker(s[a..]) && BlockEnd(s[a..]) == Some(e - a)
  }

  function EndBefore(ends: seq<nat>, k: nat): nat
    requires k <= |ends|
  {
    if k == 0 then 0 else ends[k - 1]
  }

  /** Blocks stand one behind the other at the front of s with only blanks around them, and what is left starts at
      `rest`. */
  ghost predicate StackedTo(s: string, starts: seq<nat>, ends: seq<nat>, rest: nat) {
    && |starts| == |ends|
    && (forall k | 0 <= k < |ends| :: BlockAt(s, starts[k], ends[k]))
    && (forall k | 0 <= k < |ends| :: Blanks(s, EndBefore(ends, k), starts[k]))
    && Blanks(s, EndBefore(ends, |ends|), rest)
  }

  /** Behind the blocks the message begins, or an unterminated block takes all the rest. */
  ghost predicate LeftOver(s: string, rest: nat, r: string)
    requires rest <= |s|
  {
    if HasMarker(s[rest..]) then BlockEnd(s[rest..]).None? && r == ""
    else r == s[rest..] && (r != "" ==> !IsSpace(r[0]))
  }

  lemma TrimIsTail(s: string)
    ensures LTrim(s) == s[|s| - |LTrim(s)|..] && Blanks(s, 0, |s| - |LTrim(s)|)
    ensures LTrim(s) != "" ==> !IsSpace(LTrim(s)[0])
  {
  }

  lemma TailOfTail(s: string, a: nat, b: nat)
    requires a + b <= |s|
    ensures a <= |s| && s[a..][b..] == s[a + b..]
  {
  }

  function Shift(s: seq<nat>, n: nat): (r: seq<nat>)
    ensures |r| == |s| && forall k | 0 <= k < |s| :: r[k] == s[k] + n
  {
    if s == [] then [] else Shift(s[..|s| - 1], n) + [s[|s| - 1] + n]
  }

  /** A block in front of stacked blocks. */
  lemma StackOne(s: string, a: nat, e: nat, starts: seq<nat>, ends: seq<nat>, rest: nat)
    requires Blanks(s, 0, a) && BlockAt(s, a, e) && StackedTo(s[e..], starts, ends, rest)
    ensures StackedTo(s, [a] + Shift(starts, e), [e] + Shift(ends, e), rest + e)
  {
    hide HasMarker, BlockEnd, BlockAt, Blanks, Shift, EndBefore;
    var starts', ends' := [a] + Shift(starts, e), [e] + Shift(ends, e);
    assert e <= |s| by { BlockInside(s, a, e); }
    forall k | 0 <= k < |ends'|
      ensures BlockAt(s, starts'[k], ends'[k]) && Blanks(s, EndBefore(ends', k), starts'[k])
    {
      if k == 0 {
        assert EndBefore(ends', 0) == 0 by { EndStart(ends'); }
      } else {
        var start, end, before := starts[k - 1], ends[k - 1], EndBefore(ends, k - 1);
        assert starts'[k] == start + e && ends'[k] == end + e;
        EndShift(ends, e, k - 1);
        assert BlockAt(s[e..], start, end) && Blanks(s[e..], before, start);
        BlockShift(s, e, start, end);
        BlanksShift(s, e, before, start);
      }
    }
    EndShift(ends, e, |ends|);
    BlanksShift(s, e, EndBefore(ends, |ends|), rest);
  }

  lemma EndStart(ends: seq<nat>)
    ensures EndBefore(ends, 0) == 0
  {
  }

  lemma EndShift(ends: seq<nat>, e: nat, k: nat)
    requires k <= |ends|
    ensures EndBefore([e] + Shift(ends, e), k + 1) == EndBefore(ends, k) + e
  {
  }

  lemma BlockInside(s: string, a: nat, e: nat)
    requires BlockAt(s, a, e)
    ensures e <= |s|
  {
  }

  lemma BlockShift(s: string, e: nat, a: nat, b: nat)
    requires e <= |s| && BlockAt(s[e..], a, b)
    ensures BlockAt(s, a + e, b + e)
  {
    hide HasMarker, BlockEnd;
    TailOfTail(s, e, a);
  }

  lemma BlanksShift(s: string, e: nat, a: nat, b: nat)
    requires e <= |s| && Blanks(s[e..], a, b)
    ensures Blanks(s, a + e, b + e)
  {
    forall i | a + e <= i < b + e ensures IsSpace(s[i]) {
      assert s[i] == s[e..][i - e];
    }
  }

  /** What strip_system_injected_prefix removes: blanks and blocks that each open with a marker and end where their kind
      ends, up to the first that has no end; nothing else. */
  lemma {:induction false} RemovesOnlyBlocks(s: string) returns (starts: seq<nat>, ends: seq<nat>, rest: nat)
    ensures StackedTo(s, starts, ends, rest) && LeftOver(s, rest, Peel(LTrim(s)))
    decreases |s|
  {
    hide LTrim, HasMarker, BlockEnd, Peel, StackedTo, Shift, LeftOver, Blanks, BlockAt;
    var a := |s| - |LTrim(s)|;
    if HasMarker(LTrim(s)) && BlockEnd(LTrim(s)).Some? {
      var e := FirstBlock(s);
      starts, ends, rest := RemovesOnlyBlocks(s[e..]);
      StackInside(s[e..], starts, ends, rest);
      StackOne(s, a, e, starts, ends, rest);
      LeftOverShift(s, e, rest, Peel(LTrim(s)));
      starts, ends, rest := [a] + Shift(starts, e), [e] + Shift(ends, e), rest + e;
    } else {
      starts, ends, rest := [], [], a;
      NoBlock(s);
      StackNone(s, a);
    }
  }

  /** The first block, behind the leading blanks; peeling goes on behind it. */
  lemma FirstBlock(s: string) returns (e: nat)
    requires HasMarker(LTrim(s)) && BlockEnd(LTrim(s)).Some?
    ensures Blanks(s, 0, |s| - |LTrim(s)|) && BlockAt(s, |s| - |LTrim(s)|, e) && 0 < e <= |s|
    ensures Peel(LTrim(s)) == Peel(LTrim(s[e..]))
  {
    hide LTrim, HasMarker, BlockEnd, Peel, Blanks;
    TrimIsTail(s);
    var t := LTrim(s);
    var a := |s| - |t|;
    PeelStep(t);
    e := a + BlockEnd(t).value;
    TailOfTail(s, a, BlockEnd(t).value);
    assert s[a..] == t && s[e..] == t[BlockEnd(t).value..];
  }

  lemma NoBlock(s: string)
    requires !HasMarker(LTrim(s)) || BlockEnd(LTrim(s)).None?
    ensures Blanks(s, 0, |s| - |LTrim(s)|) && LeftOver(s, |s| - |LTrim(s)|, Peel(LTrim(s)))
  {
    hide LTrim, HasMarker, BlockEnd, Peel;
    TrimIsTail(s);
    PeelStep(LTrim(s));
  }

  lemma LeftOverShift(s: string, e: nat, rest: nat, r: string)
    requires e + rest <= |s| && LeftOver(s[e..], rest, r)
    ensures LeftOver(s, rest + e, r)
  {
    hide HasMarker, BlockEnd;
    TailOfTail(s, e, rest);
  }

  lemma StackInside(s: string, starts: seq<nat>, ends: seq<nat>, rest: nat)
    requires StackedTo(s, starts, ends, rest)
    ensures rest <= |s|
  {
  }

  lemma StackNone(s: string, a: nat)
    requires Blanks(s, 0, a)
    ensures StackedTo(s, [], [], a)
  {
  }
}
