/** The terms of a text, counted: how often each comes, from the words of its
    sentences. */
module TermStream {
  import opened Text
  import opened FtsTokenize

  function Amount(items: seq<Item>, it: Item): nat {
    if items == [] then 0 else Amount(items[..|items| - 1], it) + if items[|items| - 1] == it then 1 else 0
  }

  // ----- What counts -----

  predicate Number(w: string) {
    w != "" && forall i | 0 <= i < |w| :: '0' <= w[i] <= '9'
  }

  /** More than four hexadecimal digits. */
  predicate HexBody(s: string) {
    |s| > 4 && HexDigits(s)
  }

  predicate HexDigits(s: string) {
    forall i | 0 <= i < |s| :: '0' <= s[i] <= '9' || 'a' <= s[i] <= 'f' || 'A' <= s[i] <= 'F'
  }

  predicate HexLike(w: string) {
    (("0x" <= w || "0X" <= w) && HexBody(w[2..])) || (("x" <= w || "X" <= w) && HexBody(w[1..]))
  }

  predicate Passes(lang: Lang, w: string) {
    w !in lang.uniStops && !Number(w) && !HexLike(w) && lang.stem(w) != ""
  }

  predicate PairPasses(lang: Lang, a: string, b: string) {
    a !in lang.biStops && b !in lang.biStops && !Number(a) && !Number(b) && lang.stem(a) != "" && lang.stem(b) != ""
  }

  function Code(lang: Lang, w: string): string {
    lang.metaphone(lang.stem(w))
  }

  predicate GivesWord(lang: Lang, ws: seq<string>, x: string, k: nat) {
    k < |ws| && Passes(lang, ws[k]) && lang.stem(ws[k]) == x
  }

  predicate GivesCode(lang: Lang, ws: seq<string>, x: string, k: nat) {
    k < |ws| && Passes(lang, ws[k]) && Code(lang, ws[k]) == x
  }

  /** The word and the next one give the literal term x. */
  predicate GivesPair(lang: Lang, ws: seq<string>, x: string, k: nat) {
    k + 1 < |ws| && PairPasses(lang, ws[k], ws[k + 1]) && lang.stem(ws[k]) + "_" + lang.stem(ws[k + 1]) == x
  }

  predicate GivesPairCode(lang: Lang, ws: seq<string>, x: string, k: nat) {
    k + 1 < |ws| && PairPasses(lang, ws[k], ws[k + 1]) && Code(lang, ws[k]) != "" && Code(lang, ws[k + 1]) != "" &&
    Code(lang, ws[k]) + "_" + Code(lang, ws[k + 1]) == x
  }

  ghost function Words(lang: Lang, ws: seq<string>, x: string): set<nat> {
    set k: nat | k < |ws| && GivesWord(lang, ws, x, k)
  }

  ghost function WordCodes(lang: Lang, ws: seq<string>, x: string): set<nat> {
    set k: nat | k < |ws| && GivesCode(lang, ws, x, k)
  }

  ghost function Pairs(lang: Lang, ws: seq<string>, x: string): set<nat> {
    set k: nat | k < |ws| && GivesPair(lang, ws, x, k)
  }

  ghost function PairCodes(lang: Lang, ws: seq<string>, x: string): set<nat> {
    set k: nat | k < |ws| && GivesPairCode(lang, ws, x, k)
  }

  lemma OneMore(a: set<nat>, b: set<nat>, n: nat, more: bool)
    requires n !in a && forall k: nat :: k in b <==> k in a || (more && k == n)
    ensures |b| == |a| + if more then 1 else 0
  {
    assert b == if more then a + {n} else a;
  }

  lemma HexExact(w: string)
    ensures IsHexToken(w) <==> HexLike(w)
  {
    if |w| > 2 && w[0] == '0' && (w[1] == 'x' || w[1] == 'X') {
      InRest(w, 2);
    } else if |w| > 1 && (w[0] == 'x' || w[0] == 'X') {
      InRest(w, 1);
    }
  }

  lemma InRest(w: string, k: nat)
    requires k <= |w|
    ensures (forall c <- w[k..] :: IsHexDigit(c)) <==> HexDigits(w[k..])
  {
    var s := w[k..];
    if forall c <- s :: IsHexDigit(c) {
      forall i | 0 <= i < |s| ensures '0' <= s[i] <= '9' || 'a' <= s[i] <= 'f' || 'A' <= s[i] <= 'F' {
        assert s[i] in s;
      }
    }
  }

  lemma NumberExact(w: string)
    ensures IsAllDigits(w) <==> Number(w)
  {
    if IsAllDigits(w) {
      forall i | 0 <= i < |w| ensures '0' <= w[i] <= '9' { assert w[i] in w; }
    }
  }

  lemma PassesExact(lang: Lang, w: string)
    ensures UnigramWord(lang, w) <==> Passes(lang, w)
  {
    hide IsHexToken, IsAllDigits, HexLike, Number;
    HexExact(w);
    NumberExact(w);
  }

  lemma PairPassesExact(lang: Lang, a: string, b: string)
    ensures BigramPair(lang, a, b) <==> PairPasses(lang, a, b)
  {
    hide IsAllDigits, Number;
    NumberExact(a);
    NumberExact(b);
  }

  // ----- Counting -----

  lemma {:induction false} AmountJoin(a: seq<Item>, b: seq<Item>, it: Item)
    ensures Amount(a + b, it) == Amount(a, it) + Amount(b, it)
    decreases |b|
  {
    if b == [] {
      assert a + b == a;
    } else {
      AmountJoin(a, b[..|b| - 1], it);
      assert (a + b)[..|a + b| - 1] == a + b[..|b| - 1];
    }
  }

  lemma AmountUpToTwo(a: seq<Item>, it: Item)
    requires |a| <= 2
    ensures Amount(a, it) == (if |a| > 0 && a[0] == it then 1 else 0) + (if |a| > 1 && a[1] == it then 1 else 0)
  {
    if |a| == 2 {
      assert a[..1][..0] == [];
      assert Amount(a[..1], it) == if a[0] == it then 1 else 0;
    } else if |a| == 1 {
      assert a[..0] == [];
    }
  }

  /** What one token adds. */
  lemma TokenAmount(t: Token, bi: bool, x: string, meta: bool, ofPair: bool)
    requires x != ""
    ensures Amount(TokenItems(t, bi), Item(x, meta, ofPair)) ==
      if ofPair == bi && (if meta then t.meta == x && (bi ==> '_' in t.meta) else t.literal == x) then 1 else 0
  {
    AmountUpToTwo(TokenItems(t, bi), Item(x, meta, ofPair));
  }

  lemma StreamMore(ts: seq<Token>, t: Token, bi: bool, it: Item)
    ensures Amount(TokenStream(ts + [t], bi), it) == Amount(TokenStream(ts, bi), it) + Amount(TokenItems(t, bi), it)
  {
    assert (ts + [t])[..|ts|] == ts;
    AmountJoin(TokenStream(ts, bi), TokenItems(t, bi), it);
  }

  lemma WordsMore(lang: Lang, ws: seq<string>, w: string, x: string)
    ensures |Words(lang, ws + [w], x)| ==
            |Words(lang, ws, x)| + if Passes(lang, w) && lang.stem(w) == x then 1 else 0
    ensures |WordCodes(lang, ws + [w], x)| ==
            |WordCodes(lang, ws, x)| + if Passes(lang, w) && Code(lang, w) == x then 1 else 0
  {
    hide Passes, Code;
    var more, n := ws + [w], |ws|;
    forall k: nat
      ensures GivesWord(lang, more, x, k) <==>
              GivesWord(lang, ws, x, k) || (Passes(lang, w) && lang.stem(w) == x && k == n)
      ensures GivesCode(lang, more, x, k) <==>
              GivesCode(lang, ws, x, k) || (Passes(lang, w) && Code(lang, w) == x && k == n)
    {
      if k < n { assert more[k] == ws[k]; }
    }
    OneMore(Words(lang, ws, x), Words(lang, more, x), n, Passes(lang, w) && lang.stem(w) == x);
    OneMore(WordCodes(lang, ws, x), WordCodes(lang, more, x), n, Passes(lang, w) && Code(lang, w) == x);
  }

  lemma UnigramsMore(lang: Lang, ws: seq<string>, w: string)
    ensures UnigramsOf(lang, ws + [w]) ==
      UnigramsOf(lang, ws) + if Passes(lang, w) then [Token(lang.stem(w), Code(lang, w))] else []
  {
    PassesExact(lang, w);
    assert (ws + [w])[..|ws|] == ws;
    hide UnigramWord;
  }

  lemma {:induction false} WordAmounts(lang: Lang, ws: seq<string>, x: string)
    requires x != ""
    ensures var items := TokenStream(UnigramsOf(lang, ws), false);
      && Amount(items, Item(x, false, false)) == |Words(lang, ws, x)|
      && Amount(items, Item(x, true, false)) == |WordCodes(lang, ws, x)|
      && Amount(items, Item(x, false, true)) == Amount(items, Item(x, true, true)) == 0
  {
    if ws == [] {
      assert Words(lang, ws, x) == {} && WordCodes(lang, ws, x) == {};
    } else {
      hide Words, WordCodes, Passes, Code, UnigramsOf, TokenStream, TokenItems, Amount;
      var front, w := ws[..|ws| - 1], ws[|ws| - 1];
      assert ws == front + [w];
      WordAmounts(lang, front, x);
      WordsMore(lang, front, w, x);
      UnigramsMore(lang, front, w);
      if Passes(lang, w) {
        var t := Token(lang.stem(w), Code(lang, w));
        TokenAdds(UnigramsOf(lang, front), t, false, x);
      } else {
        assert UnigramsOf(lang, front) + [] == UnigramsOf(lang, front);
      }
    }
  }

  /** One more token adds to all four counts of x. */
  lemma TokenAdds(ts: seq<Token>, t: Token, bi: bool, x: string)
    requires x != ""
    ensures forall meta, ofPair ::
      Amount(TokenStream(ts + [t], bi), Item(x, meta, ofPair)) == Amount(TokenStream(ts, bi), Item(x, meta, ofPair)) +
      if ofPair == bi && (if meta then t.meta == x && (bi ==> '_' in t.meta) else t.literal == x) then 1 else 0
  {
    hide Amount, TokenStream, TokenItems;
    forall meta, ofPair
      ensures Amount(TokenStream(ts + [t], bi), Item(x, meta, ofPair)) ==
        Amount(TokenStream(ts, bi), Item(x, meta, ofPair)) +
        if ofPair == bi && (if meta then t.meta == x && (bi ==> '_' in t.meta) else t.literal == x) then 1 else 0
    {
      StreamMore(ts, t, bi, Item(x, meta, ofPair));
      TokenAmount(t, bi, x, meta, ofPair);
    }
  }

  predicate JoinsTo(lang: Lang, a: string, b: string, x: string) {
    PairPasses(lang, a, b) && lang.stem(a) + "_" + lang.stem(b) == x
  }

  predicate CodesTo(lang: Lang, a: string, b: string, x: string) {
    PairPasses(lang, a, b) && Code(lang, a) != "" && Code(lang, b) != "" && Code(lang, a) + "_" + Code(lang, b) == x
  }

  lemma PairsMore(lang: Lang, ws: seq<string>, b: string, x: string)
    requires ws != []
    ensures |Pairs(lang, ws + [b], x)| ==
            |Pairs(lang, ws, x)| + if JoinsTo(lang, ws[|ws| - 1], b, x) then 1 else 0
    ensures |PairCodes(lang, ws + [b], x)| ==
            |PairCodes(lang, ws, x)| + if CodesTo(lang, ws[|ws| - 1], b, x) then 1 else 0
  {
    var a, n, more := ws[|ws| - 1], |ws| - 1, ws + [b];
    forall k: nat
      ensures GivesPair(lang, more, x, k) <==> GivesPair(lang, ws, x, k) || (JoinsTo(lang, a, b, x) && k == n)
      ensures GivesPairCode(lang, more, x, k) <==> GivesPairCode(lang, ws, x, k) || (CodesTo(lang, a, b, x) && k == n)
    {
      hide PairPasses, Code;
      if k < n {
        assert more[k] == ws[k] && more[k + 1] == ws[k + 1];
      } else if k == n {
        assert more[k] == a && more[k + 1] == b;
      }
    }
    hide JoinsTo, CodesTo, GivesPair, GivesPairCode;
    NotLast(lang, ws, x);
    OneMore(Pairs(lang, ws, x), Pairs(lang, more, x), n, JoinsTo(lang, a, b, x));
    OneMore(PairCodes(lang, ws, x), PairCodes(lang, more, x), n, CodesTo(lang, a, b, x));
  }

  lemma NotLast(lang: Lang, ws: seq<string>, x: string)
    requires ws != []
    ensures |ws| - 1 !in Pairs(lang, ws, x) && |ws| - 1 !in PairCodes(lang, ws, x)
    ensures !GivesPair(lang, ws, x, |ws| - 1) && !GivesPairCode(lang, ws, x, |ws| - 1)
    ensures forall k: nat :: GivesPair(lang, ws, x, k) || GivesPairCode(lang, ws, x, k) ==> k < |ws|
  {
  }

  lemma BigramsMore(lang: Lang, ws: seq<string>, b: string)
    requires ws != []
    ensures var a := ws[|ws| - 1];
      var t := Token(lang.stem(a) + "_" + lang.stem(b),
                     if Code(lang, a) != "" && Code(lang, b) != "" then Code(lang, a) + "_" + Code(lang, b) else "");
      BigramsOf(lang, ws + [b]) == BigramsOf(lang, ws) + if PairPasses(lang, a, b) then [t] else []
  {
    var a := ws[|ws| - 1];
    PairPassesExact(lang, a, b);
    assert (ws + [b])[..|ws|] == ws && (ws + [b])[|ws| - 1] == a;
    hide BigramPair;
  }

  lemma {:induction false} PairAmounts(lang: Lang, ws: seq<string>, x: string)
    requires x != ""
    ensures var items := TokenStream(BigramsOf(lang, ws), true);
      && Amount(items, Item(x, false, true)) == |Pairs(lang, ws, x)|
      && Amount(items, Item(x, true, true)) == |PairCodes(lang, ws, x)|
      && Amount(items, Item(x, false, false)) == Amount(items, Item(x, true, false)) == 0
  {
    if |ws| < 2 {
      assert Pairs(lang, ws, x) == {} && PairCodes(lang, ws, x) == {};
    } else {
      hide Pairs, PairCodes, PairPasses, Code, BigramsOf, TokenStream, TokenItems, Amount;
      var front, a, b := ws[..|ws| - 1], ws[|ws| - 2], ws[|ws| - 1];
      assert ws == front + [b] && front[|front| - 1] == a;
      PairAmounts(lang, front, x);
      PairsMore(lang, front, b, x);
      BigramsMore(lang, front, b);
      if PairPasses(lang, a, b) {
        var code := if Code(lang, a) != "" && Code(lang, b) != "" then Code(lang, a) + "_" + Code(lang, b) else "";
        CodeJoint(Code(lang, a), Code(lang, b));
        TokenAdds(BigramsOf(lang, front), Token(lang.stem(a) + "_" + lang.stem(b), code), true, x);
      } else {
        assert BigramsOf(lang, front) + [] == BigramsOf(lang, front);
      }
    }
  }

  lemma CodeJoint(a: string, b: string)
    ensures '_' in a + "_" + b
  {
    assert (a + "_" + b)[|a|] == '_';
  }

  // ----- A text -----

  /** How often, over the sentences, a word or pair gives x. */
  ghost function Sum(lang: Lang, sentences: seq<string>, places: seq<string> -> set<nat>): nat {
    if sentences == [] then 0
    else Sum(lang, sentences[..|sentences| - 1], places) + |places(lang.normalize(sentences[|sentences| - 1]))|
  }

  lemma {:induction false} StreamAmounts(lang: Lang, sentences: seq<string>, x: string)
    requires x != ""
    ensures var items := Stream(lang, sentences);
      && Amount(items, Item(x, false, false)) == Sum(lang, sentences, ws => Words(lang, ws, x))
      && Amount(items, Item(x, true, false)) == Sum(lang, sentences, ws => WordCodes(lang, ws, x))
      && Amount(items, Item(x, false, true)) == Sum(lang, sentences, ws => Pairs(lang, ws, x))
      && Amount(items, Item(x, true, true)) == Sum(lang, sentences, ws => PairCodes(lang, ws, x))
  {
    if sentences != [] {
      hide Amount, Words, WordCodes, Pairs, PairCodes, UnigramsOf, BigramsOf, TokenStream;
      var n := |sentences| - 1;
      StreamAmounts(lang, sentences[..n], x);
      var ws := lang.normalize(sentences[n]);
      WordAmounts(lang, ws, x);
      PairAmounts(lang, ws, x);
      var us, bs := TokenStream(UnigramsOf(lang, ws), false), TokenStream(BigramsOf(lang, ws), true);
      forall meta, ofPair
        ensures Amount(Stream(lang, sentences), Item(x, meta, ofPair)) ==
          Amount(Stream(lang, sentences[..n]), Item(x, meta, ofPair)) +
          Amount(us, Item(x, meta, ofPair)) + Amount(bs, Item(x, meta, ofPair))
      {
        AmountJoin(us, bs, Item(x, meta, ofPair));
        AmountJoin(Stream(lang, sentences[..n]), us + bs, Item(x, meta, ofPair));
      }
    }
  }

  /** The terms of a text, with how often each comes: a literal for each word that
      passes, its code, and the same for each pair of words adjacent in a sentence. */
  lemma ItemsExact(lang: Lang, text: string, x: string)
    requires x != ""
    ensures var items, ss := Items(lang, text), Sentences(text);
      && Amount(items, Item(x, false, false)) == Sum(lang, ss, ws => Words(lang, ws, x))
      && Amount(items, Item(x, true, false)) == Sum(lang, ss, ws => WordCodes(lang, ws, x))
      && Amount(items, Item(x, false, true)) == Sum(lang, ss, ws => Pairs(lang, ws, x))
      && Amount(items, Item(x, true, true)) == Sum(lang, ss, ws => PairCodes(lang, ws, x))
  {
    StreamAmounts(lang, Sentences(text), x);
  }

  /** A text of one-word sentences has no terms of pairs. */
  lemma {:induction false} OneWordEach(lang: Lang, sentences: seq<string>)
    requires forall s <- sentences :: |lang.normalize(s)| < 2
    ensures forall it <- Stream(lang, sentences) :: !it.isBi
  {
    if sentences != [] {
      var n := |sentences| - 1;
      OneWordEach(lang, sentences[..n]);
      WordsSingle(UnigramsOf(lang, lang.normalize(sentences[n])));
    }
  }

  lemma {:induction false} WordsSingle(ts: seq<Token>)
    ensures forall it <- TokenStream(ts, false) :: !it.isBi
  {
    if ts != [] { WordsSingle(ts[..|ts| - 1]); }
  }
}
