/** The text of the chunks: which paragraphs, under which headings, glued how. */
module ChunkText {
  import opened Chunker
  import Text

  // ----- Paragraphs -----

  /** The paragraphs that are no headings, in order. */
  function TextParas(paras: seq<string>): seq<string> {
    if paras == [] then []
    else TextParas(paras[..|paras| - 1]) + if HeadingLevel(paras[|paras| - 1]) > 0 then [] else [paras[|paras| - 1]]
  }

  function Bodies(annotated: seq<Annotated>): seq<string> {
    if annotated == [] then [] else Bodies(annotated[..|annotated| - 1]) + [annotated[|annotated| - 1].body]
  }

  /** The bodies are the paragraphs of text, whole and in order. */
  lemma {:induction false} BodiesAreParas(paras: seq<string>, n: nat)
    requires n <= |paras|
    ensures Bodies(Annotations(paras, n)) == TextParas(paras[..n])
  {
    hide HeadingLevel, Above, BlockOf, SectionOf;
    if n > 0 {
      BodiesAreParas(paras, n - 1);
      assert paras[..n][..n - 1] == paras[..n - 1];
      var front := Annotations(paras, n - 1);
      if HeadingLevel(paras[n - 1]) > 0 {
        assert front + [] == front && TextParas(paras[..n - 1]) + [] == TextParas(paras[..n - 1]);
      } else {
        var a := Annotations(paras, n)[|front|];
        assert Annotations(paras, n) == front + [a] && (front + [a])[..|front|] == front;
      }
    }
  }

  // ----- Headings -----

  /** A heading paragraph is its number signs, a space and its text. */
  lemma HeadingParts(line: string)
    requires HeadingLevel(line) > 0
    ensures line == Signs(HeadingLevel(line)) + " " + HeadingText(line)
  {
    var l := HeadingLevel(line);
    hide HeadingLevel;
    SignsExact(l);
    AfterSigns(line, l);
    assert line[..l] == Signs(l);
    assert line == line[..l] + [line[l]] + line[l + 1..];
  }

  lemma {:induction false} SignsExact(n: nat)
    ensures |Signs(n)| == n && forall i | 0 <= i < n :: Signs(n)[i] == '#'
  {
    if n > 0 { SignsExact(n - 1); }
  }

  lemma {:induction false} AfterSigns(line: string, l: nat)
    requires l < |line| && line[l] == ' ' && forall i | 0 <= i < l :: line[i] == '#'
    ensures ' ' in line && AfterSpace(line) == line[l + 1..]
  {
    assert line[l] in line;
    if l > 0 {
      AfterSigns(line[1..], l - 1);
      assert line[1..][l..] == line[l + 1..];
    }
  }

  function Join(parts: seq<string>, between: string): string {
    if parts == [] then "" else if |parts| == 1 then parts[0] else parts[0] + between + Join(parts[1..], between)
  }

  lemma {:induction false} JoinSnoc(parts: seq<string>, between: string, last: string)
    requires parts != []
    ensures Join(parts + [last], between) == Join(parts, between) + between + last
  {
    if |parts| == 1 {
      assert (parts + [last])[1..] == [last];
    } else {
      JoinSnoc(parts[1..], between, last);
      assert (parts + [last])[1..] == parts[1..] + [last];
    }
  }

  /** The heading paragraphs open at a place, in order. */
  function OpenParas(paras: seq<string>, at: seq<nat>): (r: seq<string>)
    requires Chunker.Within(at, |paras|)
    ensures |r| == |at| && forall i | 0 <= i < |at| :: r[i] == paras[at[i]]
  {
    seq(|at|, i requires 0 <= i < |at| => paras[at[i]])
  }

  lemma {:induction false} BlockJoins(stack: seq<Heading>, lines: seq<string>)
    requires |lines| == |stack| && forall i | 0 <= i < |stack| :: lines[i] == HeadingLine(stack[i])
    ensures BlockOf(stack) == Join(lines, "\n\n") && (stack != [] ==> BlockOf(stack) != "")
  {
    if stack != [] {
      var n := |stack| - 1;
      BlockJoins(stack[..n], lines[..n]);
      assert lines == lines[..n] + [lines[n]];
      if n > 0 { JoinSnoc(lines[..n], "\n\n", lines[n]); }
    }
  }

  /** The heading block of a place is the heading paragraphs it stands under, from the
      outermost on, with blank lines between. */
  lemma BlockIsParas(paras: seq<string>, n: nat)
    requires n <= |paras|
    ensures BlockOf(Above(paras, n)) == Join(OpenParas(paras, Opens(paras, n, n)), "\n\n")
  {
    hide HeadingLevel, HeadingText, BlockOf;
    var at := Opens(paras, n, n);
    var lines := OpenParas(paras, at);
    forall i | 0 <= i < |at| ensures lines[i] == HeadingLine(Above(paras, n)[i]) {
      HeadingParts(paras[at[i]]);
    }
    BlockJoins(Above(paras, n), lines);
  }

  function TextsOf(stack: seq<Heading>): (r: seq<string>)
    ensures |r| == |stack| && forall i | 0 <= i < |stack| :: r[i] == stack[i].text
  {
    seq(|stack|, i requires 0 <= i < |stack| => stack[i].text)
  }

  /** The section is the headings' texts with the separator between. */
  lemma {:induction false} SectionJoins(stack: seq<Heading>)
    requires forall h <- stack :: h.text != ""
    ensures SectionOf(stack) == Join(TextsOf(stack), " \U{C2}\U{BB} ") && (stack != [] ==> SectionOf(stack) != "")
  {
    if stack != [] {
      var n := |stack| - 1;
      SectionJoins(stack[..n]);
      assert TextsOf(stack) == TextsOf(stack[..n]) + [stack[n].text];
      if n > 0 { JoinSnoc(TextsOf(stack[..n]), " \U{C2}\U{BB} ", stack[n].text); }
    }
  }

  // ----- Chunks -----

  /** A chunk opens with the headings of its first paragraph and is of the section of its
      last. */
  lemma {:induction false} ChunkEnds(group: seq<Annotated>)
    requires group != []
    ensures var first, c := group[0], Rendered(group);
      && c.section == group[|group| - 1].section
      && (if first.headingBlock == "" then first.body else first.headingBlock + "\n\n" + first.body) <= c.text
  {
    var n := |group| - 1;
    if n > 0 {
      ChunkEnds(group[..n]);
    } else {
      assert group == [group[0]];
      RenderFirst(group[0]);
    }
  }

  /** A further paragraph stands behind a blank line, or behind its headings when they
      differ from those of the paragraph before. */
  lemma ChunkGrows(group: seq<Annotated>, a: Annotated)
    requires group != [] && Rendered(group).text != ""
    ensures var c, last := Rendered(group), group[|group| - 1];
      Rendered(group + [a]).text ==
        if a.section != last.section && a.headingBlock != "" then c.text + "\n\n" + a.headingBlock + "\n\n" + a.body
        else c.text + "\n\n" + a.body
  {
    hide Rendered;
    ChunkEnds(group);
    RenderSnoc(group, a);
    Regroup(Rendered(group).text, "\n\n", a.headingBlock, a.body);
  }

  lemma Regroup(a: string, b: string, c: string, d: string)
    ensures a + (b + c + b) + d == a + b + c + b + d
  {
  }
}
