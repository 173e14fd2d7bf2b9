/** Heading-aware chunking of split paragraphs. A string here is a sequence of bytes, one character each. */
module Chunker {
  import Text

  // ----- Headings -----

  /** The line opens with l number signs and a space. */
  predicate HeadingOf(line: string, l: nat) {
    1 <= l <= 6 && l < |line| && line[l] == ' ' && forall i | 0 <= i < l :: line[i] == '#'
  }

  function HeadingLevel(line: string): (l: nat)
    ensures l > 0 ==> HeadingOf(line, l)
    ensures forall k: nat | HeadingOf(line, k) :: l == k
  {
    if HeadingOf(line, 1) then 1 else if HeadingOf(line, 2) then 2 else if HeadingOf(line, 3) then 3
    else if HeadingOf(line, 4) then 4 else if HeadingOf(line, 5) then 5 else if HeadingOf(line, 6) then 6 else 0
  }

  method ScanHeadingLevel(line: string) returns (r: nat)
    ensures r == HeadingLevel(line)
  {
    var level := 0;
    while level < 6 && level < |line| && line[level] == '#'
      invariant level <= 6 && level <= |line|
      invariant forall i | 0 <= i < level :: line[i] == '#'
    {
      level := level + 1;
    }
    if level > 0 && level < |line| && line[level] == ' ' {
      assert HeadingOf(line, level);
      return level;
    }
    return 0;
  }

  /** Everything behind the first space, or the line when it has none. */
  function HeadingText(line: string): string {
    if ' ' in line then AfterSpace(line) else line
  }

  function AfterSpace(line: string): string
    requires ' ' in line
  {
    if line[0] == ' ' then line[1..] else AfterSpace(line[1..])
  }

  datatype Heading = Heading(level: nat, text: string)

  // ----- The headings a place stands under -----

  /** The heading at i is open before paragraph n: every heading between is of a greater level. */
  predicate Open(paras: seq<string>, n: nat, i: nat)
    requires i < n <= |paras|
  {
    HeadingLevel(paras[i]) > 0 &&
    forall j | i < j < n :: HeadingLevel(paras[j]) > 0 ==> HeadingLevel(paras[j]) > HeadingLevel(paras[i])
  }

  predicate Within(s: seq<nat>, n: nat) {
    forall i | 0 <= i < |s| :: s[i] < n
  }

  /** The open headings among the first k paragraphs, in order. */
  function Opens(paras: seq<string>, n: nat, k: nat): (s: seq<nat>)
    requires k <= n <= |paras|
    ensures Within(s, k) && forall i | 0 <= i < |s| :: Open(paras, n, s[i])
  {
    if k == 0 then [] else Opens(paras, n, k - 1) + if Open(paras, n, k - 1) then [k - 1] else []
  }

  function Entries(paras: seq<string>, s: seq<nat>): (es: seq<Heading>)
    requires Within(s, |paras|)
    ensures |es| == |s|
    ensures forall i | 0 <= i < |s| :: es[i] == Heading(HeadingLevel(paras[s[i]]), HeadingText(paras[s[i]]))
  {
    if s == [] then []
    else
      Entries(paras, s[..|s| - 1]) +
      [Heading(HeadingLevel(paras[s[|s| - 1]]), HeadingText(paras[s[|s| - 1]]))]
  }

  /** The headings paragraph n stands under. */
  function Above(paras: seq<string>, n: nat): seq<Heading>
    requires n <= |paras|
  {
    Entries(paras, Opens(paras, n, n))
  }

  lemma {:induction false} OpensExact(paras: seq<string>, n: nat, k: nat, i: nat)
    requires k <= n <= |paras| && i < k
    ensures i in Opens(paras, n, k) <==> Open(paras, n, i)
  {
    if i < k - 1 {
      OpensExact(paras, n, k - 1, i);
    }
  }

  lemma {:induction false} OpensRise(paras: seq<string>, n: nat, k: nat, a: nat, b: nat)
    requires k <= n <= |paras| && a < b < |Opens(paras, n, k)|
    ensures var s := Opens(paras, n, k); s[a] < s[b] && HeadingLevel(paras[s[a]]) < HeadingLevel(paras[s[b]])
  {
    hide HeadingLevel;
    var s := Opens(paras, n, k);
    var front := Opens(paras, n, k - 1);
    if b < |front| {
      OpensRise(paras, n, k - 1, a, b);
    } else {
      assert s[a] == front[a] && s[b] == k - 1;
      assert Open(paras, n, s[a]) && Open(paras, n, s[b]);
    }
  }

  /** The levels of the headings above a place strictly increase. */
  lemma AboveRises(paras: seq<string>, n: nat, a: nat, b: nat)
    requires n <= |paras| && a < b < |Above(paras, n)|
    ensures Above(paras, n)[a].level < Above(paras, n)[b].level
  {
    OpensRise(paras, n, n, a, b);
  }

  function Below(paras: seq<string>, s: seq<nat>, level: nat): seq<nat>
    requires Within(s, |paras|)
  {
    if s == [] then []
    else
      var x := s[|s| - 1];
      Below(paras, s[..|s| - 1], level) + if HeadingLevel(paras[x]) < level then [x] else []
  }

  lemma BelowSnoc(paras: seq<string>, s: seq<nat>, x: nat, level: nat)
    requires Within(s, |paras|) && x < |paras|
    ensures Below(paras, s + [x], level) == Below(paras, s, level) + if HeadingLevel(paras[x]) < level then [x] else []
  {
    assert (s + [x])[..|s|] == s;
  }

  lemma {:induction false} OpensNext(paras: seq<string>, n: nat, k: nat)
    requires k <= n < |paras|
    ensures var level := HeadingLevel(paras[n]);
      Opens(paras, n + 1, k) == if level == 0 then Opens(paras, n, k) else Below(paras, Opens(paras, n, k), level)
  {
    hide HeadingLevel, Below, Open;
    if k > 0 {
      OpensNext(paras, n, k - 1);
      var front, level := Opens(paras, n, k - 1), HeadingLevel(paras[n]);
      BelowSnoc(paras, front, k - 1, level);
      OpenNext(paras, n, k - 1);
      assert front + [] == front && Below(paras, front, level) + [] == Below(paras, front, level);
    } else {
      BelowNone(paras, HeadingLevel(paras[n]));
    }
  }

  lemma BelowNone(paras: seq<string>, level: nat)
    ensures Below(paras, [], level) == []
  {
  }

  lemma OpenNext(paras: seq<string>, n: nat, i: nat)
    requires i < n < |paras|
    ensures var level := HeadingLevel(paras[n]);
      Open(paras, n + 1, i) <==> Open(paras, n, i) && (level == 0 || HeadingLevel(paras[i]) < level)
  {
    hide HeadingLevel;
  }

  /** With levels rising, what lies below a level is a front piece: what is left when the back is popped. */
  lemma {:induction false} BelowIsFront(paras: seq<string>, s: seq<nat>, level: nat, m: nat)
    requires Within(s, |paras|)
    requires m <= |s|
    requires forall i | 0 <= i < m :: HeadingLevel(paras[s[i]]) < level
    requires forall i | m <= i < |s| :: HeadingLevel(paras[s[i]]) >= level
    ensures Below(paras, s, level) == s[..m]
  {
    hide HeadingLevel;
    if s != [] {
      var n := |s| - 1;
      if m <= n {
        BelowIsFront(paras, s[..n], level, m);
        assert s[..n][..m] == s[..m];
      } else {
        BelowIsFront(paras, s[..n], level, n);
        assert s[..n][..n] + [s[n]] == s[..m];
      }
    }
  }

  ghost predicate Popped(paras: seq<string>, n: nat, m: nat)
    requires n < |paras|
  {
    var s := Opens(paras, n, n);
    m <= |s| && (forall i | m <= i < |s| :: HeadingLevel(paras[s[i]]) >= HeadingLevel(paras[n])) &&
    (m > 0 ==> HeadingLevel(paras[s[m - 1]]) < HeadingLevel(paras[n]))
  }

  lemma OpensPushed(paras: seq<string>, n: nat, m: nat)
    requires n < |paras| && HeadingLevel(paras[n]) > 0 && Popped(paras, n, m)
    ensures Opens(paras, n + 1, n + 1) == Opens(paras, n, n)[..m] + [n]
  {
    hide HeadingLevel;
    var s := Opens(paras, n, n);
    forall i | 0 <= i < m ensures HeadingLevel(paras[s[i]]) < HeadingLevel(paras[n]) {
      if i < m - 1 { OpensRise(paras, n, n, i, m - 1); }
    }
    BelowIsFront(paras, s, HeadingLevel(paras[n]), m);
    OpensNext(paras, n, n);
    assert Open(paras, n + 1, n);
  }

  /** Popping what is not below the new heading and pushing it gives the headings above the next paragraph. */
  lemma AboveNext(paras: seq<string>, n: nat, m: nat)
    requires n < |paras| && HeadingLevel(paras[n]) > 0 && Popped(paras, n, m)
    ensures m <= |Above(paras, n)|
    ensures Above(paras, n + 1) == Above(paras, n)[..m] + [Heading(HeadingLevel(paras[n]), HeadingText(paras[n]))]
  {
    OpensPushed(paras, n, m);
    EntriesPushed(paras, Opens(paras, n, n), m, n);
  }

  lemma EntriesPushed(paras: seq<string>, s: seq<nat>, m: nat, n: nat)
    requires Within(s, |paras|) && m <= |s| && n < |paras|
    ensures Entries(paras, s[..m] + [n]) ==
            Entries(paras, s)[..m] + [Heading(HeadingLevel(paras[n]), HeadingText(paras[n]))]
  {
    hide HeadingLevel, HeadingText;
  }

  // ----- Annotating -----

  const SEPARATOR: string := " \U{C2}\U{BB} "

  function SectionOf(stack: seq<Heading>): string {
    if stack == [] then ""
    else
      var s := SectionOf(stack[..|stack| - 1]);
      (if s == "" then "" else s + SEPARATOR) + stack[|stack| - 1].text
  }

  function Signs(n: nat): string {
    if n == 0 then "" else Signs(n - 1) + "#"
  }

  function BlockOf(stack: seq<Heading>): string {
    if stack == [] then ""
    else
      var s := BlockOf(stack[..|stack| - 1]);
      var h := stack[|stack| - 1];
      (if s == "" then "" else s + "\n\n") + Signs(h.level) + " " + h.text
  }

  datatype Annotated = Annotated(body: string, headingBlock: string, section: string)

  /** Every paragraph that is no heading, with the headings it stands under. */
  function Annotations(paras: seq<string>, n: nat): seq<Annotated>
    requires n <= |paras|
  {
    if n == 0 then []
    else
      Annotations(paras, n - 1) +
      if HeadingLevel(paras[n - 1]) > 0 then []
      else
        var above := Above(paras, n - 1);
        [Annotated(paras[n - 1], BlockOf(above), SectionOf(above))]
  }

  method CurrentSection(stack: seq<Heading>) returns (s: string)
    ensures s == SectionOf(stack)
  {
    s := "";
    for i := 0 to |stack|
      invariant s == SectionOf(stack[..i])
    {
      assert stack[..i + 1][..i] == stack[..i];
      if s != "" {
        s := s + SEPARATOR;
      }
      s := s + stack[i].text;
    }
    assert stack[..|stack|] == stack;
  }

  method CurrentHeadingBlock(stack: seq<Heading>) returns (s: string)
    ensures s == BlockOf(stack)
  {
    s := "";
    for i := 0 to |stack|
      invariant s == BlockOf(stack[..i])
    {
      assert stack[..i + 1][..i] == stack[..i];
      if s != "" {
        s := s + "\n\n";
      }
      s := s + Signs(stack[i].level) + " " + stack[i].text;
    }
    assert stack[..|stack|] == stack;
  }

  /** Drop the headings at the top that are not above the level. */
  method Pop(stack: seq<Heading>, level: nat) returns (left: seq<Heading>)
    ensures left <= stack && (left != [] ==> left[|left| - 1].level < level)
    ensures forall i | |left| <= i < |stack| :: stack[i].level >= level
  {
    left := stack;
    while left != [] && left[|left| - 1].level >= level
      invariant left <= stack
      invariant forall i | |left| <= i < |stack| :: stack[i].level >= level
      decreases |left|
    {
      left := left[..|left| - 1];
    }
  }

  lemma PoppedFrom(paras: seq<string>, n: nat, left: seq<Heading>)
    requires n < |paras| && left <= Above(paras, n)
    requires left != [] ==> left[|left| - 1].level < HeadingLevel(paras[n])
    requires forall i | |left| <= i < |Above(paras, n)| :: Above(paras, n)[i].level >= HeadingLevel(paras[n])
    ensures Popped(paras, n, |left|)
  {
    hide HeadingLevel, HeadingText, Opens;
    var s := Opens(paras, n, n);
    assert |Above(paras, n)| == |s|;
    forall i | |left| <= i < |s| ensures HeadingLevel(paras[s[i]]) >= HeadingLevel(paras[n]) {
      assert Above(paras, n)[i].level >= HeadingLevel(paras[n]);
    }
  }

  /** The heading stack of chunk_markdown. */
  method Annotate(paras: seq<string>) returns (annotated: seq<Annotated>)
    ensures annotated == Annotations(paras, |paras|)
  {
    hide HeadingLevel, HeadingText, SectionOf, BlockOf, Above, Popped;
    annotated := [];
    var stack: seq<Heading> := [];
    OpensStart(paras);
    for n := 0 to |paras|
      invariant stack == Above(paras, n)
      invariant annotated == Annotations(paras, n)
    {
      var level := ScanHeadingLevel(paras[n]);
      if level > 0 {
        stack := Pop(stack, level);
        PoppedFrom(paras, n, stack);
        AboveNext(paras, n, |stack|);
        stack := stack + [Heading(level, HeadingText(paras[n]))];
      } else {
        AboveSame(paras, n);
        var block := CurrentHeadingBlock(stack);
        var section := CurrentSection(stack);
        annotated := annotated + [Annotated(paras[n], block, section)];
      }
    }
  }

  lemma OpensStart(paras: seq<string>)
    ensures Above(paras, 0) == []
  {
  }

  lemma AboveSame(paras: seq<string>, n: nat)
    requires n < |paras| && HeadingLevel(paras[n]) == 0
    ensures Above(paras, n + 1) == Above(paras, n)
  {
    OpensNext(paras, n, n);
  }

  // ----- Merging -----

  datatype Chunk = Chunk(text: string, section: string)

  const EMPTY := Chunk("", "")

  function Headed(a: Annotated): string {
    if a.headingBlock == "" then a.body else a.headingBlock + "\n\n" + a.body
  }

  /** What stands between the chunk so far and the body. */
  function Glue(c: Chunk, a: Annotated): string {
    if c.text == "" then if a.headingBlock == "" then "" else a.headingBlock + "\n\n"
    else if a.section != c.section && a.headingBlock != "" then "\n\n" + a.headingBlock + "\n\n"
    else "\n\n"
  }

  /** The paragraphs of a group as one chunk. */
  function Rendered(group: seq<Annotated>): Chunk {
    if group == [] then EMPTY
    else
      var c := Rendered(group[..|group| - 1]);
      var a := group[|group| - 1];
      Chunk(c.text + Glue(c, a) + a.body, a.section)
  }

  datatype Groups = Groups(closed: seq<seq<Annotated>>, open: seq<Annotated>)

  predicate Full(group: seq<Annotated>, min: int) {
    Rendered(group).text != "" && |Rendered(group).text| >= min
  }

  /** Paragraphs join the open group until it is full. */
  function Grouped(annotated: seq<Annotated>, min: int): Groups {
    if annotated == [] then Groups([], [])
    else
      var g := Grouped(annotated[..|annotated| - 1], min);
      var a := annotated[|annotated| - 1];
      if Full(g.open, min) then Groups(g.closed + [g.open], [a]) else Groups(g.closed, g.open + [a])
  }

  function All(g: Groups): seq<seq<Annotated>> {
    if Rendered(g.open).text == "" then g.closed else g.closed + [g.open]
  }

  function RenderAll(groups: seq<seq<Annotated>>): (cs: seq<Chunk>)
    ensures |cs| == |groups|
    ensures forall k | 0 <= k < |cs| :: cs[k] == Rendered(groups[k])
  {
    if groups == [] then [] else RenderAll(groups[..|groups| - 1]) + [Rendered(groups[|groups| - 1])]
  }

  function ChunksOf(annotated: seq<Annotated>, min: int): (cs: seq<Chunk>)
    ensures var groups := All(Grouped(annotated, min));
      |cs| == |groups| && forall k | 0 <= k < |cs| :: cs[k] == Rendered(groups[k])
  {
    RenderAll(All(Grouped(annotated, min)))
  }

  lemma RenderSnoc(group: seq<Annotated>, a: Annotated)
    ensures var c := Rendered(group); Rendered(group + [a]) == Chunk(c.text + Glue(c, a) + a.body, a.section)
  {
    assert (group + [a])[..|group|] == group;
  }

  lemma RenderFirst(a: Annotated)
    ensures Rendered([a]) == Chunk(Headed(a), a.section)
  {
    RenderSnoc([], a);
    assert [] + [a] == [a];
  }

  lemma RenderAllSnoc(groups: seq<seq<Annotated>>, g: seq<Annotated>)
    ensures RenderAll(groups + [g]) == RenderAll(groups) + [Rendered(g)]
  {
    assert (groups + [g])[..|groups|] == groups;
  }

  /** The merge loop of chunk_markdown. */
  method Merge(annotated: seq<Annotated>, min: int) returns (chunks: seq<Chunk>)
    ensures chunks == ChunksOf(annotated, min)
  {
    hide Rendered, RenderAll;
    chunks := [];
    var current, currentSec := "", "";
    assert Rendered([]) == EMPTY && RenderAll([]) == [] by { RenderNothing(); }
    for k := 0 to |annotated|
      invariant var g := Grouped(annotated[..k], min);
        chunks == RenderAll(g.closed) && Rendered(g.open) == Chunk(current, currentSec)
    {
      ghost var g := Grouped(annotated[..k], min);
      assert annotated[..k + 1][..k] == annotated[..k];
      var a := annotated[k];
      RenderSnoc(g.open, a);
      RenderFirst(a);
      RenderAllSnoc(g.closed, g.open);
      if current == "" {
        current := if a.headingBlock == "" then a.body else a.headingBlock + "\n\n" + a.body;
        currentSec := a.section;
      } else if |current| >= min {
        chunks := chunks + [Chunk(current, currentSec)];
        current := if a.headingBlock == "" then a.body else a.headingBlock + "\n\n" + a.body;
        currentSec := a.section;
      } else {
        if a.section != currentSec && a.headingBlock != "" {
          current := current + ("\n\n" + a.headingBlock + "\n\n") + a.body;
        } else {
          current := current + "\n\n" + a.body;
        }
        currentSec := a.section;
      }
    }
    assert annotated[..|annotated|] == annotated;
    ghost var g := Grouped(annotated, min);
    RenderAllSnoc(g.closed, g.open);
    if current != "" {
      chunks := chunks + [Chunk(current, currentSec)];
    }
  }

  lemma RenderNothing()
    ensures Rendered([]) == EMPTY && RenderAll([]) == []
  {
  }

  method ChunkMarkdown(paras: seq<string>, min: int) returns (chunks: seq<Chunk>)
    ensures chunks == ChunksOf(Annotations(paras, |paras|), min)
  {
    var annotated := Annotate(paras);
    chunks := Merge(annotated, min);
  }

  // ----- What chunking keeps -----

  function Flat(groups: seq<seq<Annotated>>): seq<Annotated> {
    if groups == [] then [] else Flat(groups[..|groups| - 1]) + groups[|groups| - 1]
  }

  predicate Blank(a: Annotated) {
    a.body == "" && a.headingBlock == ""
  }

  lemma {:induction false} EmptyMeansBlank(group: seq<Annotated>)
    requires Rendered(group).text == ""
    ensures forall a <- group :: Blank(a)
  {
    if group != [] {
      EmptyMeansBlank(group[..|group| - 1]);
    }
  }

  lemma {:induction false} GroupedFlat(annotated: seq<Annotated>, min: int)
    ensures var g := Grouped(annotated, min); Flat(g.closed) + g.open == annotated
  {
    hide Rendered;
    if annotated != [] {
      var front := annotated[..|annotated| - 1];
      var a := annotated[|annotated| - 1];
      GroupedFlat(front, min);
      var g := Grouped(front, min);
      assert (g.closed + [g.open])[..|g.closed|] == g.closed;
      assert Flat(g.closed) + (g.open + [a]) == Flat(g.closed) + g.open + [a];
    }
  }

  /** The groups together are the paragraphs in order, but for blank ones at the end. */
  ghost predicate Partition(annotated: seq<Annotated>, groups: seq<seq<Annotated>>) {
    Flat(groups) <= annotated && forall i | |Flat(groups)| <= i < |annotated| :: Blank(annotated[i])
  }

  /** Every paragraph lands in exactly one chunk, in order; only blank ones at the end may be dropped. */
  lemma EveryBodyOnce(annotated: seq<Annotated>, min: int)
    ensures Partition(annotated, All(Grouped(annotated, min)))
  {
    hide Rendered, Grouped, Flat, Blank;
    GroupedFlat(annotated, min);
    var g := Grouped(annotated, min);
    if Rendered(g.open).text == "" {
      EmptyMeansBlank(g.open);
      BlankTail(annotated, g.closed, g.open);
    } else {
      FlatSnoc(g.closed, g.open);
    }
  }

  lemma FlatSnoc(groups: seq<seq<Annotated>>, group: seq<Annotated>)
    ensures Flat(groups + [group]) == Flat(groups) + group
  {
    assert (groups + [group])[..|groups|] == groups;
  }

  /** A last group of blanks may be left out. */
  lemma BlankTail(annotated: seq<Annotated>, groups: seq<seq<Annotated>>, tail: seq<Annotated>)
    requires Flat(groups) + tail == annotated && forall a <- tail :: Blank(a)
    ensures Partition(annotated, groups)
  {
    hide Flat, Blank;
    forall i | |Flat(groups)| <= i < |annotated| ensures Blank(annotated[i]) {
      assert annotated[i] == tail[i - |Flat(groups)|];
    }
  }

  /** A group is closed exactly when it is full: not before, and not later. */
  predicate Tight(group: seq<Annotated>, min: int) {
    forall k | 0 <= k < |group| :: !Full(group[..k], min)
  }

  lemma {:induction false} GroupedTight(annotated: seq<Annotated>, min: int)
    ensures var g := Grouped(annotated, min);
      Tight(g.open, min) && forall k | 0 <= k < |g.closed| :: Full(g.closed[k], min) && Tight(g.closed[k], min)
  {
    hide Full;
    if annotated != [] {
      GroupedTight(annotated[..|annotated| - 1], min);
      var before := Grouped(annotated[..|annotated| - 1], min);
      var g := Grouped(annotated, min);
      if Full(before.open, min) {
        EmptyNotFull(min);
        assert g.open[..0] == [];
      } else {
        forall k | 0 <= k < |g.open| ensures !Full(g.open[..k], min) {
          if k < |before.open| {
            assert g.open[..k] == before.open[..k];
          } else {
            assert g.open[..k] == before.open;
          }
        }
      }
    }
  }

  lemma EmptyNotFull(min: int)
    ensures !Full([], min)
  {
  }

  /** Every chunk but the last reaches the minimum size, no chunk is empty, and none takes a paragraph more once it
      has reached the minimum. */
  lemma ChunkSizes(annotated: seq<Annotated>, min: int, k: nat)
    requires k < |ChunksOf(annotated, min)|
    ensures ChunksOf(annotated, min)[k].text != ""
    ensures k < |ChunksOf(annotated, min)| - 1 ==> |ChunksOf(annotated, min)[k].text| >= min
    ensures |All(Grouped(annotated, min))| == |ChunksOf(annotated, min)| && Tight(All(Grouped(annotated, min))[k], min)
    ensures var group := All(Grouped(annotated, min))[k];
      forall j | 0 <= j < |group| :: Rendered(group[..j]).text == "" || |Rendered(group[..j]).text| < min
  {
    hide Rendered;
    GroupedTight(annotated, min);
  }

  /** Where the bodies of a group stand in its chunk. */
  predicate Placed(group: seq<Annotated>, text: string, offsets: seq<nat>) {
    |offsets| == |group| &&
    (forall i | 0 <= i < |group| ::
      offsets[i] + |group[i].body| <= |text| && text[offsets[i]..offsets[i] + |group[i].body|] == group[i].body) &&
    forall i, j | 0 <= i < j < |group| :: offsets[i] + |group[i].body| <= offsets[j]
  }

  /** The bodies of a group stand in its chunk whole, in order and without overlap. */
  lemma {:induction false} BodiesInOrder(group: seq<Annotated>) returns (offsets: seq<nat>)
    ensures Placed(group, Rendered(group).text, offsets)
  {
    if group == [] {
      offsets := [];
    } else {
      var n := |group| - 1;
      offsets := BodiesInOrder(group[..n]);
      var c := Rendered(group[..n]);
      var a := group[n];
      offsets := PlaceNext(group[..n], c.text, offsets, Glue(c, a), a);
      assert group[..n] + [a] == group;
    }
  }

  lemma PlaceNext(group: seq<Annotated>, text: string, offsets: seq<nat>, glue: string, a: Annotated)
    returns (more: seq<nat>)
    requires Placed(group, text, offsets)
    ensures Placed(group + [a], text + glue + a.body, more)
  {
    more := offsets + [|text + glue|];
    var t := text + glue + a.body;
    forall i | 0 <= i < |group|
      ensures more[i] + |group[i].body| <= |t| && t[more[i]..more[i] + |group[i].body|] == group[i].body
    {
      assert t[offsets[i]..offsets[i] + |group[i].body|] == text[offsets[i]..offsets[i] + |group[i].body|];
    }
    assert t[|text + glue|..|t|] == a.body;
  }

  // ----- What becomes of a heading -----

  lemma HoldsIn(a: string, p: string, b: string)
    ensures Text.Holds(a + p + b, p)
  {
    assert (a + p + b)[|a|..|a| + |p|] == p;
    assert Text.At(a + p + b, p, |a|);
  }

  lemma HoldsMore(s: string, p: string, a: string, b: string)
    requires Text.Holds(s, p)
    ensures Text.Holds(a + s + b, p)
  {
    var i: nat :| Text.At(s, p, i);
    assert (a + s + b)[|a| + i..|a| + i + |p|] == s[i..i + |p|];
    assert Text.At(a + s + b, p, |a| + i);
  }

  function HeadingLine(h: Heading): string {
    Signs(h.level) + " " + h.text
  }

  function Extended(s: string, between: string, more: string): string {
    (if s == "" then "" else s + between) + more
  }

  lemma ExtendedHolds(s: string, between: string, more: string, p: string)
    requires p == more || Text.Holds(s, p)
    ensures Text.Holds(Extended(s, between, more), p)
  {
    var front := if s == "" then "" else s + between;
    if p == more {
      HoldsIn(front, more, "");
      assert front + more + "" == front + more;
    } else if s == "" {
      var i: nat :| Text.At(s, p, i);
      assert Text.At(front + more, p, 0);
    } else {
      HoldsMore(s, p, "", between + more);
      assert "" + s + (between + more) == s + between + more;
    }
  }

  lemma StackStep(stack: seq<Heading>)
    requires stack != []
    ensures var front, h := stack[..|stack| - 1], stack[|stack| - 1];
      BlockOf(stack) == Extended(BlockOf(front), "\n\n", HeadingLine(h)) &&
      SectionOf(stack) == Extended(SectionOf(front), SEPARATOR, h.text)
  {
    hide SEPARATOR, Signs;
    var h := stack[|stack| - 1];
    var s := BlockOf(stack[..|stack| - 1]);
    var front := if s == "" then "" else s + "\n\n";
    assert front + Signs(h.level) + " " + h.text == front + (Signs(h.level) + " " + h.text);
  }

  /** A heading's line stands whole in the heading block, and its text in the section. */
  lemma {:induction false} InBlock(stack: seq<Heading>, k: nat)
    requires k < |stack|
    ensures Text.Holds(BlockOf(stack), HeadingLine(stack[k])) && Text.Holds(SectionOf(stack), stack[k].text)
  {
    hide SEPARATOR, HeadingLine, BlockOf, SectionOf, Extended, Text.Holds;
    var n := |stack| - 1;
    StackStep(stack);
    if k < n { InBlock(stack[..n], k); }
    ExtendedHolds(BlockOf(stack[..n]), "\n\n", HeadingLine(stack[n]), HeadingLine(stack[k]));
    ExtendedHolds(SectionOf(stack[..n]), SEPARATOR, stack[n].text, stack[k].text);
  }

  /** A heading open before paragraph n has its line in the block of that place. */
  lemma HeadingInBlock(paras: seq<string>, n: nat, i: nat)
    requires i < n <= |paras| && Open(paras, n, i)
    ensures var h := Heading(HeadingLevel(paras[i]), HeadingText(paras[i]));
      Text.Holds(BlockOf(Above(paras, n)), HeadingLine(h)) && Text.Holds(SectionOf(Above(paras, n)), h.text)
  {
    hide HeadingLevel, HeadingText, BlockOf, SectionOf;
    OpensExact(paras, n, n, i);
    var k :| 0 <= k < |Opens(paras, n, n)| && Opens(paras, n, n)[k] == i;
    InBlock(Above(paras, n), k);
  }

  // ----- Its way into a chunk -----

  ghost predicate Shown(g: Groups, p: string) {
    Text.Holds(Rendered(g.open).text, p) || exists k | 0 <= k < |g.closed| :: Text.Holds(Rendered(g.closed[k]).text, p)
  }

  lemma OpenEnds(annotated: seq<Annotated>, min: int)
    requires annotated != []
    ensures var open := Grouped(annotated, min).open;
      open != [] && Rendered(open).section == annotated[|annotated| - 1].section
  {
  }

  lemma HeadedHolds(a: Annotated)
    requires a.headingBlock != ""
    ensures Text.Holds(Headed(a), a.headingBlock)
  {
    HoldsIn("", a.headingBlock, "\n\n" + a.body);
    assert "" + a.headingBlock + ("\n\n" + a.body) == Headed(a);
  }

  lemma GluedHolds(c: Chunk, a: Annotated)
    requires a.headingBlock != "" && (c.text == "" || c.section != a.section)
    ensures Text.Holds(c.text + Glue(c, a) + a.body, a.headingBlock)
  {
    var front := c.text + if c.text == "" then "" else "\n\n";
    HoldsIn(front, a.headingBlock, "\n\n" + a.body);
    assert front + a.headingBlock + ("\n\n" + a.body) == c.text + Glue(c, a) + a.body;
  }

  lemma ShownAtOnce(annotated: seq<Annotated>, min: int, a: Annotated)
    requires a.headingBlock != ""
    requires annotated != [] ==> annotated[|annotated| - 1].section != a.section
    ensures Shown(Grouped(annotated + [a], min), a.headingBlock)
  {
    hide Rendered, Full, Glue, Headed, Text.Holds;
    assert (annotated + [a])[..|annotated|] == annotated;
    var g := Grouped(annotated, min);
    if annotated == [] { RenderNothing(); } else { OpenEnds(annotated, min); }
    if Full(g.open, min) {
      RenderFirst(a);
      HeadedHolds(a);
    } else {
      RenderSnoc(g.open, a);
      GluedHolds(Rendered(g.open), a);
    }
  }

  lemma ShownStays(annotated: seq<Annotated>, min: int, a: Annotated, p: string)
    requires Shown(Grouped(annotated, min), p)
    ensures Shown(Grouped(annotated + [a], min), p)
  {
    hide Rendered, Full;
    assert (annotated + [a])[..|annotated|] == annotated;
    var g := Grouped(annotated, min);
    var more := Grouped(annotated + [a], min);
    RenderSnoc(g.open, a);
    if Text.Holds(Rendered(g.open).text, p) {
      var c := Rendered(g.open);
      HoldsMore(c.text, p, "", Glue(c, a) + a.body);
      assert "" + c.text + (Glue(c, a) + a.body) == c.text + Glue(c, a) + a.body;
      if Full(g.open, min) {
        assert more.closed[|g.closed|] == g.open;
      }
    } else {
      var k :| 0 <= k < |g.closed| && Text.Holds(Rendered(g.closed[k]).text, p);
      assert more.closed[k] == g.closed[k];
    }
  }

  lemma {:induction false} ShownAfter(annotated: seq<Annotated>, min: int, k: nat, n: nat)
    requires k < n <= |annotated| && annotated[k].headingBlock != ""
    requires k > 0 ==> annotated[k - 1].section != annotated[k].section
    ensures Shown(Grouped(annotated[..n], min), annotated[k].headingBlock)
    decreases n
  {
    hide Grouped, Shown;
    assert annotated[..n] == annotated[..n - 1] + [annotated[n - 1]];
    if k == n - 1 {
      ShownAtOnce(annotated[..k], min, annotated[k]);
    } else {
      ShownAfter(annotated, min, k, n - 1);
      ShownStays(annotated[..n - 1], min, annotated[n - 1], annotated[k].headingBlock);
    }
  }

  /** The heading block of a paragraph whose section is not that of the paragraph before it stands whole in a chunk. */
  lemma BlockInChunk(annotated: seq<Annotated>, min: int, k: nat) returns (c: nat)
    requires k < |annotated| && annotated[k].headingBlock != ""
    requires k > 0 ==> annotated[k - 1].section != annotated[k].section
    ensures c < |ChunksOf(annotated, min)| && Text.Holds(ChunksOf(annotated, min)[c].text, annotated[k].headingBlock)
  {
    hide Rendered, Grouped;
    ShownAfter(annotated, min, k, |annotated|);
    assert annotated[..|annotated|] == annotated;
    var g := Grouped(annotated, min);
    if Text.Holds(Rendered(g.open).text, annotated[k].headingBlock) {
      assert Rendered(g.open).text != "";
      c := |g.closed|;
    } else {
      c :| 0 <= c < |g.closed| && Text.Holds(Rendered(g.closed[c]).text, annotated[k].headingBlock);
    }
  }

  // ----- When its text is lost -----

  /** Another heading of the same level in its place. */
  predicate Swapped(paras: seq<string>, i: nat, h: string) {
    i < |paras| && HeadingLevel(paras[i]) > 0 && HeadingLevel(h) == HeadingLevel(paras[i])
  }

  lemma SwapOpen(paras: seq<string>, i: nat, h: string, n: nat, j: nat)
    requires Swapped(paras, i, h) && j < n <= |paras|
    ensures Open(paras[i := h], n, j) <==> Open(paras, n, j)
  {
    hide HeadingLevel;
    var swapped := paras[i := h];
    assert forall k | 0 <= k < n :: HeadingLevel(swapped[k]) == HeadingLevel(paras[k]);
  }

  lemma {:induction false} SwapOpens(paras: seq<string>, i: nat, h: string, n: nat, k: nat)
    requires Swapped(paras, i, h) && k <= n <= |paras|
    ensures Opens(paras[i := h], n, k) == Opens(paras, n, k)
  {
    hide HeadingLevel, Open, Swapped;
    if k > 0 {
      SwapOpens(paras, i, h, n, k - 1);
      SwapOpen(paras, i, h, n, k - 1);
    }
  }

  /** Paragraph n is text under the heading at i. */
  predicate Under(paras: seq<string>, i: nat, n: nat) {
    i < n < |paras| && HeadingLevel(paras[n]) == 0 && Open(paras, n, i)
  }

  lemma SwapAbove(paras: seq<string>, i: nat, h: string, n: nat)
    requires Swapped(paras, i, h) && n <= |paras| && (i < n ==> !Open(paras, n, i))
    ensures Above(paras[i := h], n) == Above(paras, n)
  {
    hide HeadingLevel, HeadingText;
    SwapOpens(paras, i, h, n, n);
    if i < n { OpensExact(paras, n, n, i); }
    var s := Opens(paras, n, n);
    assert forall k | 0 <= k < |s| :: s[k] in s && s[k] != i;
  }

  /** With no text under it, a heading leaves no trace. */
  lemma {:induction false} SwapAnnotations(paras: seq<string>, i: nat, h: string, n: nat)
    requires Swapped(paras, i, h) && n <= |paras| && forall m | 0 <= m < n :: !Under(paras, i, m)
    ensures Annotations(paras[i := h], n) == Annotations(paras, n)
  {
    hide HeadingLevel, Above, BlockOf, SectionOf;
    if n > 0 {
      SwapAnnotations(paras, i, h, n - 1);
      assert !Under(paras, i, n - 1);
      if HeadingLevel(paras[n - 1]) == 0 {
        SwapAbove(paras, i, h, n - 1);
      }
    }
  }

  function Long(n: nat): (s: string)
    ensures |s| == n
  {
    if n == 0 then "" else Long(n - 1) + "x"
  }

  lemma {:induction false} SignsAre(n: nat)
    ensures |Signs(n)| == n && forall i | 0 <= i < n :: Signs(n)[i] == '#'
  {
    if n > 0 { SignsAre(n - 1); }
  }

  lemma {:induction false} AfterSigns(s: string, n: nat, text: string)
    requires |s| == n && forall i | 0 <= i < n :: s[i] == '#'
    ensures ' ' in s + " " + text && AfterSpace(s + " " + text) == text
    decreases n
  {
    var line := s + " " + text;
    assert line[n] == ' ';
    if n > 0 {
      AfterSigns(s[1..], n - 1, text);
      assert line[1..] == s[1..] + " " + text;
    } else {
      assert line[1..] == text;
    }
  }

  /** A heading line reads back. */
  lemma ReadsBack(level: nat, text: string)
    requires 1 <= level <= 6
    ensures HeadingLevel(HeadingLine(Heading(level, text))) == level
    ensures HeadingText(HeadingLine(Heading(level, text))) == text
  {
    SignsAre(level);
    AfterSigns(Signs(level), level, text);
    assert HeadingOf(HeadingLine(Heading(level, text)), level);
  }

  /** Longer than every chunk. */
  function Bound(cs: seq<Chunk>): (n: nat)
    ensures forall c | 0 <= c < |cs| :: |cs[c].text| <= n
  {
    if cs == [] then 0
    else var n := Bound(cs[..|cs| - 1]); if |cs[|cs| - 1].text| > n then |cs[|cs| - 1].text| else n
  }

  /** The first text behind a heading is under it when any is. */
  lemma {:induction false} FirstUnder(paras: seq<string>, i: nat, n: nat) returns (m: nat)
    requires Under(paras, i, n)
    ensures Under(paras, i, m) && m <= n && forall k | i < k < m :: HeadingLevel(paras[k]) > 0
    decreases n
  {
    if k :| i < k < n && HeadingLevel(paras[k]) == 0 {
      m := FirstUnder(paras, i, k);
    } else {
      m := n;
    }
  }

  /** Headings alone annotate nothing. */
  lemma {:induction false} HeadingsOnly(paras: seq<string>, i: nat, n: nat)
    requires i <= n <= |paras| && forall k | i <= k < n :: HeadingLevel(paras[k]) > 0
    ensures Annotations(paras, n) == Annotations(paras, i)
    decreases n
  {
    if i < n { HeadingsOnly(paras, i, n - 1); }
  }

  lemma {:induction false} AnnotationsGrow(paras: seq<string>, n: nat, m: nat)
    requires n <= m <= |paras|
    ensures Annotations(paras, n) <= Annotations(paras, m)
    decreases m
  {
    hide HeadingLevel, Above;
    if n < m { AnnotationsGrow(paras, n, m - 1); }
  }

  /** With a long text in its place, a heading that has text under it makes a chunk longer than any given bound. */
  lemma LongHeading(paras: seq<string>, min: int, i: nat, m: nat, size: nat) returns (h: string, c: nat)
    requires i < |paras| && HeadingLevel(paras[i]) > 0
    requires Under(paras, i, m) && forall k | i < k < m :: HeadingLevel(paras[k]) > 0
    ensures Swapped(paras, i, h)
    ensures var chunks := ChunksOf(Annotations(paras[i := h], |paras|), min);
      c < |chunks| && |chunks[c].text| >= size
  {
    hide Rendered, Grouped, HeadingText, AfterSpace, BlockOf, SectionOf, Above;
    var before := Annotations(paras, i);
    var length := size + (if before == [] then 0 else |before[|before| - 1].section|) + 1;
    var level := HeadingLevel(paras[i]);
    h := HeadingLine(Heading(level, Long(length)));
    ReadsBack(level, Long(length));
    hide HeadingLevel;
    var swapped := paras[i := h];
    SwapAnnotations(paras, i, h, i);
    HeadingsOnly(swapped, i, m);
    AnnotationsGrow(swapped, m, |paras|);
    AnnotationsGrow(swapped, m + 1, |paras|);
    SwapOpen(paras, i, h, m, i);
    HeadingInBlock(swapped, m, i);
    var all := Annotations(swapped, |paras|);
    var a := all[|before|];
    assert a == Annotated(swapped[m], BlockOf(Above(swapped, m)), SectionOf(Above(swapped, m)));
    hide Annotations, HeadingLine;
    LongSize(a, level, length);
    c := BlockInChunk(all, min, |before|);
    HoldsSize(ChunksOf(all, min)[c].text, a.headingBlock);
  }

  lemma LongSize(a: Annotated, level: nat, length: nat)
    requires Text.Holds(a.headingBlock, HeadingLine(Heading(level, Long(length)))) &&
      Text.Holds(a.section, Long(length))
    ensures |a.headingBlock| > length && |a.section| >= length
  {
    HoldsSize(a.headingBlock, HeadingLine(Heading(level, Long(length))));
    HoldsSize(a.section, Long(length));
  }

  lemma HoldsSize(s: string, p: string)
    requires Text.Holds(s, p)
    ensures |s| >= |p|
  {
  }

  /** Whether the text of a heading paragraph reaches any chunk: it does, so that another text gives other chunks,
      exactly when a paragraph of text stands under it. All that stands on the lines directly below a heading line
      belongs to the heading paragraph, and is lost with it. */
  lemma TextUnderHeadingLost(paras: seq<string>, min: int, i: nat)
    requires i < |paras| && HeadingLevel(paras[i]) > 0
    ensures (forall h | Swapped(paras, i, h) ::
              ChunksOf(Annotations(paras[i := h], |paras|), min) == ChunksOf(Annotations(paras, |paras|), min))
            <==> forall n | 0 <= n < |paras| :: !Under(paras, i, n)
  {
    hide ChunksOf, Annotations, HeadingLevel;
    var chunks := ChunksOf(Annotations(paras, |paras|), min);
    if n :| 0 <= n < |paras| && Under(paras, i, n) {
      var m := FirstUnder(paras, i, n);
      var h, c := LongHeading(paras, min, i, m, Bound(chunks) + 1);
      assert ChunksOf(Annotations(paras[i := h], |paras|), min) != chunks;
    } else {
      forall h | Swapped(paras, i, h) ensures ChunksOf(Annotations(paras[i := h], |paras|), min) == chunks {
        SwapAnnotations(paras, i, h, |paras|);
      }
    }
  }
}
