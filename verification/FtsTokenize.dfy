/** Sentences, unigrams and bigrams of the text index (fts_tokenize). The word
    normaliser, the stemmer and the metaphone coder are parameters. */
module FtsTokenize {
  import opened Text

  datatype Lang = Lang(
    normalize: string -> seq<string>,
    stem: string -> string,
    metaphone: string -> string,
    uniStops: set<string>,
    biStops: set<string>)

  /** A literal term with its phonetic code, either possibly empty. */
  datatype Token = Token(literal: string, meta: string)

  // ----- Sentences -----

  predicate Terminator(c: char) {
    c == '.' || c == '!' || c == '?' || c == ':' || c == ';'
  }

  function Push(result: seq<string>, current: string): seq<string> {
    if Trim(current) == "" then result else result + [Trim(current)]
  }

  /** The sentences closed so far and the open one. */
  function Scan(text: string): (seq<string>, string) {
    if text == "" then ([], "")
    else
      var (result, current) := Scan(text[..|text| - 1]);
      var c := text[|text| - 1];
      if Terminator(c) then (Push(result, current + [c]), "") else (result, current + [c])
  }

  function Sentences(text: string): seq<string> {
    Push(Scan(text).0, Scan(text).1)
  }

  method SplitSentences(text: string) returns (result: seq<string>)
    ensures result == Sentences(text)
  {
    result := [];
    var current := "";
    for i := 0 to |text|
      invariant (result, current) == Scan(text[..i])
    {
      assert text[..i + 1][..i] == text[..i];
      var c := text[i];
      current := current + [c];
      if Terminator(c) {
        result := Push(result, current);
        current := "";
      }
    }
    assert text[..|text|] == text;
    result := Push(result, current);
  }

  function Dense(s: string): string {
    if s == "" then "" else Dense(s[..|s| - 1]) + (if IsSpace(s[|s| - 1]) then "" else [s[|s| - 1]])
  }

  function DenseAll(ss: seq<string>): string {
    if ss == [] then "" else DenseAll(ss[..|ss| - 1]) + Dense(ss[|ss| - 1])
  }

  lemma {:induction false} DenseCat(a: string, b: string)
    ensures Dense(a + b) == Dense(a) + Dense(b)
  {
    if b == "" {
      assert a + b == a;
    } else {
      DenseCat(a, b[..|b| - 1]);
      assert (a + b)[..|a + b| - 1] == a + b[..|b| - 1];
    }
  }

  lemma {:induction false} DenseBlank(s: string)
    requires forall i | 0 <= i < |s| :: IsSpace(s[i])
    ensures Dense(s) == ""
  {
    if s != "" { DenseBlank(s[..|s| - 1]); }
  }

  lemma DenseLTrim(s: string)
    ensures Dense(LTrim(s)) == Dense(s)
  {
    hide Dense;
    var l := LTrim(s);
    var k := |s| - |l|;
    hide LTrim;
    assert s == s[..k] + l;
    DenseBlank(s[..k]);
    DenseCat(s[..k], l);
  }

  lemma DenseRTrim(s: string)
    ensures Dense(RTrim(s)) == Dense(s)
  {
    hide Dense;
    var r := RTrim(s);
    hide RTrim;
    assert s == r + s[|r|..];
    DenseBlank(s[|r|..]);
    DenseCat(r, s[|r|..]);
  }

  lemma DenseTrim(s: string)
    ensures Dense(Trim(s)) == Dense(s)
  {
    hide Dense;
    DenseLTrim(s);
    DenseRTrim(LTrim(s));
  }

  lemma DensePush(result: seq<string>, current: string)
    ensures DenseAll(Push(result, current)) == DenseAll(result) + Dense(current)
  {
    DenseTrim(current);
    if Trim(current) != "" {
      var next := result + [Trim(current)];
      assert next[..|next| - 1] == result;
    }
  }

  lemma DenseEmpty()
    ensures Dense("") == "" && DenseAll([]) == ""
  {
  }

  predicate SentenceShape(s: string) {
    s != "" && !IsSpace(s[0]) && !IsSpace(s[|s| - 1]) && forall i | 0 <= i < |s| - 1 :: !Terminator(s[i])
  }

  lemma TrimShape(s: string)
    requires Trim(s) != "" && forall i | 0 <= i < |s| - 1 :: !Terminator(s[i])
    ensures SentenceShape(Trim(s))
  {
    var l := LTrim(s);
    var k := |s| - |l|;
    var r := RTrim(l);
    hide LTrim, RTrim;
    assert r[0] == l[0];
    forall i | 0 <= i < |r| - 1 ensures !Terminator(r[i]) {
      assert r[i] == l[i] && l[i] == s[k + i];
    }
  }

  lemma {:induction false} ScanInv(text: string)
    ensures var (result, current) := Scan(text);
      && DenseAll(result) + Dense(current) == Dense(text)
      && (forall s <- result :: SentenceShape(s))
      && forall i | 0 <= i < |current| :: !Terminator(current[i])
  {
    hide Dense, DenseAll, Trim;
    if text == "" {
      DenseEmpty();
    } else {
      var front, c := text[..|text| - 1], text[|text| - 1];
      assert text == front + [c];
      ScanInv(front);
      var (result, current) := Scan(front);
      DenseCat(current, [c]);
      DenseCat(front, [c]);
      DenseEmpty();
      if Terminator(c) {
        DensePush(result, current + [c]);
        if Trim(current + [c]) != "" { TrimShape(current + [c]); }
      }
    }
  }

  /** Splitting loses nothing but blanks: the sentences are trimmed and not
      empty, end at their only terminator, and hold every other character of the
      text in order. */
  lemma SentencesExact(text: string)
    ensures DenseAll(Sentences(text)) == Dense(text)
    ensures forall s <- Sentences(text) :: SentenceShape(s)
  {
    ScanInv(text);
    var (result, current) := Scan(text);
    DensePush(result, current);
    if Trim(current) != "" { TrimShape(current); }
  }

  /** It ends at one of the five characters that close a sentence. */
  predicate Closed(s: string) {
    s != "" && var c := s[|s| - 1]; c == '.' || c == '!' || c == '?' || c == ':' || c == ';'
  }

  lemma TrimKeepsEnd(s: string, c: char)
    requires Terminator(c)
    ensures Closed(Trim(s + [c]))
  {
    var t := s + [c];
    var l := LTrim(t);
    assert !IsSpace(t[|t| - 1]);
    assert l != "" && l[|l| - 1] == c;
    var r := RTrim(l);
    assert !IsSpace(l[|l| - 1]);
    assert r == l;
  }

  lemma {:induction false} ScanCloses(text: string)
    ensures forall s <- Scan(text).0 :: Closed(s)
  {
    hide Trim, Closed;
    if text != "" {
      var front, c := text[..|text| - 1], text[|text| - 1];
      ScanCloses(front);
      if Terminator(c) { TrimKeepsEnd(Scan(front).1, c); }
    }
  }

  /** A sentence ends nowhere else: every one before the last is closed. */
  lemma SentencesEnd(text: string)
    ensures var ss := Sentences(text); forall k | 0 <= k < |ss| - 1 :: Closed(ss[k])
    ensures forall s <- Sentences(text), i | 0 <= i < |s| - 1 ::
      s[i] != '.' && s[i] != '!' && s[i] != '?' && s[i] != ':' && s[i] != ';'
  {
    ScanCloses(text);
    SentencesExact(text);
    var (result, current) := Scan(text);
    forall k | 0 <= k < |Sentences(text)| - 1 ensures Closed(Sentences(text)[k]) {
      assert Sentences(text)[k] == result[k] && result[k] in result;
    }
  }

  // ----- Tokens -----

  predicate IsDigit(c: char) {
    '0' <= c <= '9'
  }

  predicate IsAllDigits(s: string) {
    s != "" && forall c <- s :: IsDigit(c)
  }

  predicate IsHexDigit(c: char) {
    IsDigit(c) || 'a' <= c <= 'f' || 'A' <= c <= 'F'
  }

  /** A 0x or x prefix followed by more than four hexadecimal digits. */
  predicate IsHexToken(s: string) {
    if |s| > 2 && s[0] == '0' && (s[1] == 'x' || s[1] == 'X') then |s| > 6 && forall c <- s[2..] :: IsHexDigit(c)
    else if |s| > 1 && (s[0] == 'x' || s[0] == 'X') then |s| > 5 && forall c <- s[1..] :: IsHexDigit(c)
    else false
  }

  predicate UnigramWord(lang: Lang, word: string) {
    word !in lang.uniStops && !IsAllDigits(word) && !IsHexToken(word) && lang.stem(word) != ""
  }

  function UnigramsOf(lang: Lang, words: seq<string>): seq<Token> {
    if words == [] then []
    else
      var w := words[|words| - 1];
      UnigramsOf(lang, words[..|words| - 1]) +
      if UnigramWord(lang, w) then [UnigramToken(lang, w)] else []
  }

  function Metaphone(lang: Lang, stem: string): string {
    if stem == "" then "" else lang.metaphone(stem)
  }

  method Unigrams(lang: Lang, words: seq<string>) returns (result: seq<Token>)
    ensures result == UnigramsOf(lang, words)
  {
    result := [];
    for i := 0 to |words|
      invariant result == UnigramsOf(lang, words[..i])
    {
      assert words[..i + 1][..i] == words[..i];
      var word := words[i];
      if word in lang.uniStops { continue; }
      if IsAllDigits(word) { continue; }
      if IsHexToken(word) { continue; }
      var stemmed := lang.stem(word);
      if stemmed == "" { continue; }
      result := result + [Token(stemmed, Metaphone(lang, stemmed))];
    }
    assert words[..|words|] == words;
  }

  ghost predicate Ascending(s: seq<nat>, n: nat) {
    (forall i, j | 0 <= i < j < |s| :: s[i] < s[j]) && forall i | 0 <= i < |s| :: s[i] < n
  }

  function UnigramToken(lang: Lang, word: string): Token {
    Token(lang.stem(word), Metaphone(lang, lang.stem(word)))
  }

  /** `at` lists, in order, exactly the words that pass the filters, and the tokens are theirs. */
  ghost predicate UnigramsFrom(lang: Lang, words: seq<string>, at: seq<nat>) {
    && Ascending(at, |words|)
    && (forall i: nat | i < |words| :: i in at <==> UnigramWord(lang, words[i]))
    && |UnigramsOf(lang, words)| == |at|
    && forall k | 0 <= k < |at| :: UnigramsOf(lang, words)[k] == UnigramToken(lang, words[at[k]])
  }

  /** One token for every word that is no stop word, no number, no hexadecimal token and has a stem, in order. */
  lemma {:induction false} UnigramsExact(lang: Lang, words: seq<string>) returns (at: seq<nat>)
    ensures UnigramsFrom(lang, words, at)
  {
    if words == [] {
      at := [];
    } else {
      hide UnigramsFrom, UnigramWord;
      var n := |words| - 1;
      var front := UnigramsExact(lang, words[..n]);
      assert words == words[..n] + [words[n]];
      at := front + if UnigramWord(lang, words[n]) then [n] else [];
      UnigramsMore(lang, words[..n], words[n], front);
    }
  }

  lemma UnigramsMore(lang: Lang, words: seq<string>, w: string, at: seq<nat>)
    requires UnigramsFrom(lang, words, at)
    ensures UnigramsFrom(lang, words + [w], at + if UnigramWord(lang, w) then [|words|] else [])
  {
    hide UnigramWord, UnigramToken;
    var more := words + [w];
    var ats := at + if UnigramWord(lang, w) then [|words|] else [];
    assert more[..|words|] == words;
    assert UnigramsOf(lang, more) ==
      UnigramsOf(lang, words) + if UnigramWord(lang, w) then [UnigramToken(lang, w)] else [];
    hide UnigramsOf;
    assert forall i: nat | i < |words| :: more[i] == words[i];
    assert |words| in ats <==> UnigramWord(lang, w);
    forall i: nat | i < |words| ensures i in ats <==> UnigramWord(lang, words[i]) {
      assert i in ats <==> i in at;
    }
  }

  predicate BigramPair(lang: Lang, a: string, b: string) {
    a !in lang.biStops && b !in lang.biStops && !IsAllDigits(a) && !IsAllDigits(b) &&
    lang.stem(a) != "" && lang.stem(b) != ""
  }

  function PairToken(lang: Lang, a: string, b: string): Token {
    var ma, mb := Metaphone(lang, lang.stem(a)), Metaphone(lang, lang.stem(b));
    Token(lang.stem(a) + "_" + lang.stem(b), if ma != "" && mb != "" then ma + "_" + mb else "")
  }

  function BigramsOf(lang: Lang, words: seq<string>): seq<Token> {
    if |words| < 2 then []
    else
      var a, b := words[|words| - 2], words[|words| - 1];
      BigramsOf(lang, words[..|words| - 1]) + if BigramPair(lang, a, b) then [PairToken(lang, a, b)] else []
  }

  method Bigrams(lang: Lang, words: seq<string>) returns (result: seq<Token>)
    ensures result == BigramsOf(lang, words)
  {
    result := [];
    if |words| < 2 { return; }
    for i := 0 to |words| - 1
      invariant result == BigramsOf(lang, words[..i + 1])
    {
      assert words[..i + 2][..i + 1] == words[..i + 1];
      var a, b := words[i], words[i + 1];
      if a in lang.biStops || b in lang.biStops || IsAllDigits(a) || IsAllDigits(b) { continue; }
      if lang.stem(a) == "" || lang.stem(b) == "" { continue; }
      result := result + [PairToken(lang, a, b)];
    }
    assert words[..|words|] == words;
  }

  /** `at` lists, in order, exactly the words that pass the filters together with the word right behind them. */
  ghost predicate BigramsFrom(lang: Lang, words: seq<string>, at: seq<nat>) {
    && Ascending(at, if words == [] then 0 else |words| - 1)
    && (forall i: nat | i + 1 < |words| :: i in at <==> BigramPair(lang, words[i], words[i + 1]))
    && |BigramsOf(lang, words)| == |at|
    && forall k | 0 <= k < |at| :: BigramsOf(lang, words)[k] == PairToken(lang, words[at[k]], words[at[k] + 1])
  }

  /** One token for every pair of words adjacent in the text that passes the filters, in order: a word left out is
      never bridged. */
  lemma {:induction false} BigramsExact(lang: Lang, words: seq<string>) returns (at: seq<nat>)
    ensures BigramsFrom(lang, words, at)
  {
    if |words| < 2 {
      at := [];
    } else {
      hide BigramsFrom, BigramPair;
      var n := |words| - 1;
      var front := BigramsExact(lang, words[..n]);
      assert words == words[..n] + [words[n]];
      at := front + if BigramPair(lang, words[n - 1], words[n]) then [n - 1] else [];
      BigramsMore(lang, words[..n], words[n], front);
    }
  }

  lemma BigramsMore(lang: Lang, words: seq<string>, w: string, at: seq<nat>)
    requires words != [] && BigramsFrom(lang, words, at)
    ensures BigramsFrom(lang, words + [w], at + if BigramPair(lang, words[|words| - 1], w) then [|words| - 1] else [])
  {
    hide BigramPair, PairToken;
    var more, n := words + [w], |words| - 1;
    var last := words[n];
    var ats := at + if BigramPair(lang, last, w) then [n] else [];
    assert more[..|words|] == words && more[n] == last && more[n + 1] == w;
    assert BigramsOf(lang, more) ==
      BigramsOf(lang, words) + if BigramPair(lang, last, w) then [PairToken(lang, last, w)] else [];
    hide BigramsOf;
    assert forall i: nat | i < |words| :: more[i] == words[i];
    assert n in ats <==> BigramPair(lang, last, w);
    forall i: nat | i + 1 < |more| ensures i in ats <==> BigramPair(lang, more[i], more[i + 1]) {
      if i < n {
        assert i in ats <==> i in at;
        assert more[i] == words[i] && more[i + 1] == words[i + 1];
      }
    }
    forall k | 0 <= k < |at| ensures BigramsOf(lang, more)[k] == PairToken(lang, more[ats[k]], more[ats[k] + 1]) {
      assert more[at[k]] == words[at[k]] && more[at[k] + 1] == words[at[k] + 1];
    }
  }

  /** A pair has a phonetic code exactly when both of its words have one, and the code then holds the joint the index
      looks for. */
  lemma PairCode(lang: Lang, a: string, b: string)
    ensures var code := PairToken(lang, a, b).meta;
      (code != "" <==> Metaphone(lang, lang.stem(a)) != "" && Metaphone(lang, lang.stem(b)) != "") &&
      (code != "" ==> '_' in code)
  {
    var ma, mb := Metaphone(lang, lang.stem(a)), Metaphone(lang, lang.stem(b));
    if ma != "" && mb != "" {
      assert PairToken(lang, a, b).meta[|ma|] == '_';
    }
  }

  // ----- The term stream of a text -----

  /** One term as it is counted: what it is, and whether it is a phonetic code
      and whether it is of a bigram. */
  datatype Item = Item(term: string, isMeta: bool, isBi: bool)

  /** The terms of a token; a bigram's code counts only when both halves have one. */
  function TokenItems(t: Token, bi: bool): seq<Item> {
    (if t.literal != "" then [Item(t.literal, false, bi)] else []) +
    (if t.meta != "" && (bi ==> '_' in t.meta) then [Item(t.meta, true, bi)] else [])
  }

  function TokenStream(ts: seq<Token>, bi: bool): seq<Item> {
    if ts == [] then [] else TokenStream(ts[..|ts| - 1], bi) + TokenItems(ts[|ts| - 1], bi)
  }

  function SentenceItems(lang: Lang, sentence: string): seq<Item> {
    var words := lang.normalize(sentence);
    TokenStream(UnigramsOf(lang, words), false) + TokenStream(BigramsOf(lang, words), true)
  }

  function Stream(lang: Lang, sentences: seq<string>): seq<Item> {
    if sentences == [] then []
    else Stream(lang, sentences[..|sentences| - 1]) + SentenceItems(lang, sentences[|sentences| - 1])
  }

  function Items(lang: Lang, text: string): seq<Item> {
    Stream(lang, Sentences(text))
  }

  lemma EmptyText(lang: Lang)
    ensures Items(lang, "") == []
  {
    assert Trim("") == "";
    assert Sentences("") == [];
  }
}
