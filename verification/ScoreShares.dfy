/** What a score is made of: counted occurrences, document frequencies and the
    three weights, each where it belongs. */
module ScoreShares {
  import opened Wrappers
  import opened FtsTokenize
  import opened TextIndex
  import TermStream

  // ----- Counting places -----

  ghost function Places(items: seq<Item>, term: string): set<nat> {
    set i: nat | i < |items| && items[i].term == term
  }

  /** The places of the literal terms of one sort. */
  ghost function LiteralPlaces(items: seq<Item>, bi: bool): set<nat> {
    set i: nat | i < |items| && !items[i].isMeta && items[i].isBi == bi
  }

  lemma {:induction false} OccursPlaces(items: seq<Item>, term: string)
    ensures Occurs(items, term) == |Places(items, term)|
  {
    if items == [] {
      assert Places(items, term) == {};
    } else {
      var n := |items| - 1;
      OccursPlaces(items[..n], term);
      assert Places(items, term) == Places(items[..n], term) + if items[n].term == term then {n} else {};
    }
  }

  lemma {:induction false} LiteralsPlaces(items: seq<Item>, bi: bool)
    ensures Literals(items, bi) == |LiteralPlaces(items, bi)|
  {
    if items == [] {
      assert LiteralPlaces(items, bi) == {};
    } else {
      var n := |items| - 1;
      LiteralsPlaces(items[..n], bi);
      assert LiteralPlaces(items, bi) ==
        LiteralPlaces(items[..n], bi) + if !items[n].isMeta && items[n].isBi == bi then {n} else {};
    }
  }

  // ----- One term in one record -----

  /** The record holds the term, and literal terms of its sort. */
  ghost predicate Touched(docs: map<Key, string>, tok: Tokenizer, table: string, it: Item, id: int) {
    Key(table, id) in docs &&
    Places(tok(docs[Key(table, id)]), it.term) != {} && LiteralPlaces(tok(docs[Key(table, id)]), it.isBi) != {}
  }

  ghost function RecordsOf(docs: map<Key, string>, table: string): set<Key> {
    set k <- docs | k.table == table
  }

  ghost function HoldersOf(docs: map<Key, string>, tok: Tokenizer, table: string, term: string): set<Key> {
    set k <- docs | k.table == table && Places(tok(docs[k]), term) != {}
  }

  function Over(a: real, b: real): real {
    if b == 0.0 then 0.0 else a / b
  }

  /** Occurrences among the record's literals of the sort, times the logarithm of
      records over holders. */
  ghost function Share(docs: map<Key, string>, tok: Tokenizer, ln: real -> real, table: string, it: Item, id: int): real
    requires Touched(docs, tok, table, it, id)
  {
    var items := tok(docs[Key(table, id)]);
    Over(|Places(items, it.term)| as real, |LiteralPlaces(items, it.isBi)| as real) *
    ln(Over(|RecordsOf(docs, table)| as real, |HoldersOf(docs, tok, table, it.term)| as real))
  }

  function WeightOf(w: Weights, bi: bool, meta: bool): real {
    (if bi then w.bigram else w.unigram) * (if meta then w.metaphone else 1.0)
  }

  lemma SameSets(docs: map<Key, string>, tok: Tokenizer, table: string, term: string)
    ensures Records(docs, table) == RecordsOf(docs, table)
    ensures Holders(docs, tok, table, term) == HoldersOf(docs, tok, table, term)
  {
    hide Occurs, Places;
    forall k <- docs ensures Occurs(tok(docs[k]), term) > 0 <==> Places(tok(docs[k]), term) != {} {
      OccursPlaces(tok(docs[k]), term);
    }
  }

  lemma Reorder(weight: real, tf: real, idf: real, m: real)
    ensures weight * tf * idf * m == (weight * m) * (tf * idf)
  {
    var a, b := weight * tf, tf * idf;
    assert a * idf == weight * b;
    assert (weight * b) * m == (weight * m) * b;
  }

  /** A record that holds the term is one of the records, and of the holders. */
  lemma Counted(docs: map<Key, string>, tok: Tokenizer, table: string, term: string, k: Key)
    requires k in docs && k.table == table && Places(tok(docs[k]), term) != {}
    ensures |RecordsOf(docs, table)| > 0 && |HoldersOf(docs, tok, table, term)| > 0
  {
    hide Places;
    assert k in RecordsOf(docs, table) && k in HoldersOf(docs, tok, table, term);
  }

  lemma IdfExact(docs: map<Key, string>, tok: Tokenizer, ln: real -> real, table: string, it: Item, id: int)
    requires Touched(docs, tok, table, it, id)
    ensures Idf(docs, tok, ln, table, it.term) ==
      ln(Over(|RecordsOf(docs, table)| as real, |HoldersOf(docs, tok, table, it.term)| as real))
  {
    hide Places, LiteralPlaces, Records, RecordsOf, Holders, HoldersOf;
    SameSets(docs, tok, table, it.term);
    Counted(docs, tok, table, it.term, Key(table, id));
  }

  lemma TermScoreExact(docs: map<Key, string>, tok: Tokenizer, w: Weights, ln: real -> real, table: string,
                       it: Item, id: int, count: nat, denom: nat)
    requires Touched(docs, tok, table, it, id)
    requires count == |Places(tok(docs[Key(table, id)]), it.term)|
    requires 0 < denom == |LiteralPlaces(tok(docs[Key(table, id)]), it.isBi)|
    ensures TermScore(w, it, count, denom, Idf(docs, tok, ln, table, it.term)) ==
            WeightOf(w, it.isBi, it.isMeta) * Share(docs, tok, ln, table, it, id)
  {
    IdfExact(docs, tok, ln, table, it, id);
    hide Places, LiteralPlaces, RecordsOf, HoldersOf, Idf;
    var weight, m := if it.isBi then w.bigram else w.unigram, if it.isMeta then w.metaphone else 1.0;
    var tf, idf := count as real / denom as real, Idf(docs, tok, ln, table, it.term);
    assert Share(docs, tok, ln, table, it, id) == tf * idf;
    Reorder(weight, tf, idf, m);
  }

  /** What a term adds to a record: the weight of its sort, the phonetic weight on
      phonetic terms only, and its share. */
  lemma ContributionExact(docs: map<Key, string>, tok: Tokenizer, w: Weights, ln: real -> real, table: string,
                          it: Item, id: int)
    ensures Contribution(docs, tok, w, ln, table, it, id) ==
      if (it.isMeta || w.literalEnabled) && Touched(docs, tok, table, it, id)
      then Some(WeightOf(w, it.isBi, it.isMeta) * Share(docs, tok, ln, table, it, id)) else None
  {
    hide Occurs, Literals, Places, LiteralPlaces, Idf, TermScore, Share;
    if Key(table, id) in docs {
      var items := tok(docs[Key(table, id)]);
      OccursPlaces(items, it.term);
      LiteralsPlaces(items, it.isBi);
      if Touched(docs, tok, table, it, id) {
        TermScoreExact(docs, tok, w, ln, table, it, id, Occurs(items, it.term), Literals(items, it.isBi));
      }
    }
  }

  // ----- A whole query -----

  /** The shares of the query's terms of one sort. */
  ghost function Shares(docs: map<Key, string>, tok: Tokenizer, ln: real -> real, table: string, query: seq<Item>,
                        id: int, bi: bool, meta: bool): real {
    if query == [] then 0.0
    else
      var it := query[|query| - 1];
      Shares(docs, tok, ln, table, query[..|query| - 1], id, bi, meta) +
      if it.isBi == bi && it.isMeta == meta && Touched(docs, tok, table, it, id)
      then Share(docs, tok, ln, table, it, id) else 0.0
  }

  ghost predicate Reached(docs: map<Key, string>, tok: Tokenizer, w: Weights, table: string, query: seq<Item>,
                          id: int) {
    exists i: nat | i < |query| ::
      (query[i].isMeta || w.literalEnabled) && Touched(docs, tok, table, query[i], id)
  }

  /** Single words count by the unigram weight, pairs by the bigram weight, phonetic
      terms of either by the phonetic weight besides, literals only when enabled. */
  function Weighted(w: Weights, words: real, wordCodes: real, pairs: real, pairCodes: real): real {
    w.unigram * ((if w.literalEnabled then words else 0.0) + w.metaphone * wordCodes) +
    w.bigram * ((if w.literalEnabled then pairs else 0.0) + w.metaphone * pairCodes)
  }

  lemma WeightedMore(w: Weights, a: real, b: real, c: real, d: real, x: real)
    ensures w.literalEnabled ==> Weighted(w, a + x, b, c, d) == Weighted(w, a, b, c, d) + WeightOf(w, false, false) * x
    ensures Weighted(w, a, b + x, c, d) == Weighted(w, a, b, c, d) + WeightOf(w, false, true) * x
    ensures w.literalEnabled ==> Weighted(w, a, b, c + x, d) == Weighted(w, a, b, c, d) + WeightOf(w, true, false) * x
    ensures Weighted(w, a, b, c, d + x) == Weighted(w, a, b, c, d) + WeightOf(w, true, true) * x
    ensures !w.literalEnabled ==>
      Weighted(w, a + x, b, c, d) == Weighted(w, a, b, c, d) == Weighted(w, a, b, c + x, d)
  {
    Spread(w.unigram, (if w.literalEnabled then a else 0.0) + w.metaphone * b, x, w.metaphone);
    Spread(w.bigram, (if w.literalEnabled then c else 0.0) + w.metaphone * d, x, w.metaphone);
    MetaSpread(w.metaphone, b, x);
    MetaSpread(w.metaphone, d, x);
  }

  lemma Spread(weight: real, sum: real, x: real, m: real)
    ensures weight * (sum + x) == weight * sum + weight * x
    ensures weight * (sum + m * x) == weight * sum + (weight * m) * x
  {
    assert weight * (m * x) == (weight * m) * x;
  }

  lemma MetaSpread(m: real, b: real, x: real)
    ensures m * (b + x) == m * b + m * x
  {
  }

  lemma SharesMore(docs: map<Key, string>, tok: Tokenizer, ln: real -> real, table: string, query: seq<Item>,
                   id: int, bi: bool, meta: bool)
    requires query != []
    ensures var it := query[|query| - 1];
      Shares(docs, tok, ln, table, query, id, bi, meta) ==
      Shares(docs, tok, ln, table, query[..|query| - 1], id, bi, meta) +
      if it.isBi == bi && it.isMeta == meta && Touched(docs, tok, table, it, id)
      then Share(docs, tok, ln, table, it, id) else 0.0
  {
  }

  lemma ReachedMore(docs: map<Key, string>, tok: Tokenizer, w: Weights, table: string, query: seq<Item>, id: int)
    requires query != []
    ensures var n := |query| - 1;
      Reached(docs, tok, w, table, query, id) <==>
      Reached(docs, tok, w, table, query[..n], id) ||
      ((query[n].isMeta || w.literalEnabled) && Touched(docs, tok, table, query[n], id))
  {
    hide Touched;
    var n := |query| - 1;
    if i: nat :| i < n && (query[i].isMeta || w.literalEnabled) && Touched(docs, tok, table, query[i], id) {
      assert query[..n][i] == query[i];
    }
  }

  ghost function Parts(docs: map<Key, string>, tok: Tokenizer, w: Weights, ln: real -> real, table: string,
                       query: seq<Item>, id: int): real {
    Weighted(w, Shares(docs, tok, ln, table, query, id, false, false),
             Shares(docs, tok, ln, table, query, id, false, true),
             Shares(docs, tok, ln, table, query, id, true, false), Shares(docs, tok, ln, table, query, id, true, true))
  }

  lemma PartsMore(docs: map<Key, string>, tok: Tokenizer, w: Weights, ln: real -> real, table: string,
                  query: seq<Item>, id: int)
    requires query != []
    ensures var it := query[|query| - 1];
      Parts(docs, tok, w, ln, table, query, id) == Parts(docs, tok, w, ln, table, query[..|query| - 1], id) +
      if (it.isMeta || w.literalEnabled) && Touched(docs, tok, table, it, id)
      then WeightOf(w, it.isBi, it.isMeta) * Share(docs, tok, ln, table, it, id) else 0.0
  {
    hide Shares, Share, Touched, Weighted, WeightOf;
    var front, it := query[..|query| - 1], query[|query| - 1];
    SharesMore(docs, tok, ln, table, query, id, false, false);
    SharesMore(docs, tok, ln, table, query, id, false, true);
    SharesMore(docs, tok, ln, table, query, id, true, false);
    SharesMore(docs, tok, ln, table, query, id, true, true);
    WeightedMore(w, Shares(docs, tok, ln, table, front, id, false, false),
                 Shares(docs, tok, ln, table, front, id, false, true),
                 Shares(docs, tok, ln, table, front, id, true, false),
                 Shares(docs, tok, ln, table, front, id, true, true),
                 if Touched(docs, tok, table, it, id) then Share(docs, tok, ln, table, it, id) else 0.0);
  }

  lemma NothingAsked(docs: map<Key, string>, tok: Tokenizer, w: Weights, ln: real -> real, table: string, id: int)
    ensures Score(docs, tok, w, ln, table, [], id) == None && !Reached(docs, tok, w, table, [], id)
    ensures Parts(docs, tok, w, ln, table, [], id) == 0.0
  {
  }

  lemma ScoreMore(docs: map<Key, string>, tok: Tokenizer, w: Weights, ln: real -> real, table: string,
                  query: seq<Item>, id: int)
    requires query != []
    ensures var a, b := Score(docs, tok, w, ln, table, query[..|query| - 1], id),
                        Contribution(docs, tok, w, ln, table, query[|query| - 1], id);
      Score(docs, tok, w, ln, table, query, id) ==
        if a.None? then b else if b.None? then a else Some(a.value + b.value)
  {
    hide Contribution;
  }

  lemma {:induction false} ScoreParts(docs: map<Key, string>, tok: Tokenizer, w: Weights, ln: real -> real,
                                      table: string, query: seq<Item>, id: int)
    ensures var s := Score(docs, tok, w, ln, table, query, id);
      && (s.Some? <==> Reached(docs, tok, w, table, query, id))
      && (if s.Some? then s.value else 0.0) == Parts(docs, tok, w, ln, table, query, id)
  {
    hide Contribution, Share, Touched, Parts, WeightOf, Reached, Score;
    if query == [] {
      NothingAsked(docs, tok, w, ln, table, id);
    } else {
      var it := query[|query| - 1];
      ScoreMore(docs, tok, w, ln, table, query, id);
      ScoreParts(docs, tok, w, ln, table, query[..|query| - 1], id);
      ContributionExact(docs, tok, w, ln, table, it, id);
      PartsMore(docs, tok, w, ln, table, query, id);
      ReachedMore(docs, tok, w, table, query, id);
    }
  }

  /** The score of a record: the unigram weight on what the query's words give, the
      bigram weight on what its pairs give. There is one exactly when some term of the
      query that counts touches the record. */
  lemma ScoreExact(docs: map<Key, string>, tok: Tokenizer, w: Weights, ln: real -> real, table: string,
                   query: seq<Item>, id: int)
    ensures var s := Score(docs, tok, w, ln, table, query, id);
      && (s.Some? <==> Reached(docs, tok, w, table, query, id))
      && (if s.Some? then s.value else 0.0) ==
           Weighted(w, Shares(docs, tok, ln, table, query, id, false, false),
                    Shares(docs, tok, ln, table, query, id, false, true),
                    Shares(docs, tok, ln, table, query, id, true, false),
                    Shares(docs, tok, ln, table, query, id, true, true))
  {
    hide Score, Shares, Weighted, Reached;
    ScoreParts(docs, tok, w, ln, table, query, id);
  }

  /** What a finished query returns for a record. */
  lemma TalliesExact(acc: map<int, real>, docs: map<Key, string>, tok: Tokenizer, w: Weights, ln: real -> real,
                     table: string, query: seq<Item>, id: int)
    requires Tallies(acc, docs, tok, w, ln, table, query)
    ensures id in acc <==> Reached(docs, tok, w, table, query, id)
    ensures id in acc ==>
      acc[id] == Weighted(w, Shares(docs, tok, ln, table, query, id, false, false),
                          Shares(docs, tok, ln, table, query, id, false, true),
                          Shares(docs, tok, ln, table, query, id, true, false),
                          Shares(docs, tok, ln, table, query, id, true, true))
  {
    hide Score, Shares, Weighted, Reached;
    assert Lookup(acc, id) == Score(docs, tok, w, ln, table, query, id);
    ScoreExact(docs, tok, w, ln, table, query, id);
  }

  // ----- Which weight touches what -----

  lemma {:induction false} NoShares(docs: map<Key, string>, tok: Tokenizer, ln: real -> real, table: string,
                                    query: seq<Item>, id: int, bi: bool, meta: bool)
    requires forall it <- query :: it.isBi != bi || it.isMeta != meta
    ensures Shares(docs, tok, ln, table, query, id, bi, meta) == 0.0
  {
    if query != [] {
      NoShares(docs, tok, ln, table, query[..|query| - 1], id, bi, meta);
    }
  }

  lemma WeightedFree(w: Weights, a: real, b: real, c: real, d: real, x: real)
    ensures c == 0.0 && d == 0.0 ==> Weighted(w.(bigram := x), a, b, c, d) == Weighted(w, a, b, c, d)
    ensures a == 0.0 && b == 0.0 ==> Weighted(w.(unigram := x), a, b, c, d) == Weighted(w, a, b, c, d)
    ensures b == 0.0 && d == 0.0 ==> Weighted(w.(metaphone := x), a, b, c, d) == Weighted(w, a, b, c, d)
  {
  }

  /** Two sets of weights give the same score when the weighted sums agree. */
  lemma SameScore(docs: map<Key, string>, tok: Tokenizer, w: Weights, v: Weights, ln: real -> real, table: string,
                  query: seq<Item>, id: int)
    requires w.literalEnabled == v.literalEnabled
    requires Parts(docs, tok, w, ln, table, query, id) == Parts(docs, tok, v, ln, table, query, id)
    ensures Score(docs, tok, w, ln, table, query, id) == Score(docs, tok, v, ln, table, query, id)
  {
    hide Score, Parts, Touched;
    ScoreParts(docs, tok, w, ln, table, query, id);
    ScoreParts(docs, tok, v, ln, table, query, id);
  }

  /** The bigram weight does not touch a query of single words, the unigram weight no
      query of pairs, and the phonetic weight nothing but phonetic terms. */
  lemma WeightsApart(docs: map<Key, string>, tok: Tokenizer, w: Weights, ln: real -> real, table: string,
                     query: seq<Item>, id: int, x: real)
    ensures (forall it <- query :: !it.isBi) ==>
      Score(docs, tok, w.(bigram := x), ln, table, query, id) == Score(docs, tok, w, ln, table, query, id)
    ensures (forall it <- query :: it.isBi) ==>
      Score(docs, tok, w.(unigram := x), ln, table, query, id) == Score(docs, tok, w, ln, table, query, id)
    ensures (forall it <- query :: !it.isMeta) ==>
      Score(docs, tok, w.(metaphone := x), ln, table, query, id) == Score(docs, tok, w, ln, table, query, id)
  {
    hide Score, Shares, Weighted;
    WeightedFree(w, Shares(docs, tok, ln, table, query, id, false, false),
                 Shares(docs, tok, ln, table, query, id, false, true),
                 Shares(docs, tok, ln, table, query, id, true, false),
                 Shares(docs, tok, ln, table, query, id, true, true), x);
    if forall it <- query :: !it.isBi {
      NoShares(docs, tok, ln, table, query, id, true, false);
      NoShares(docs, tok, ln, table, query, id, true, true);
      SameScore(docs, tok, w.(bigram := x), w, ln, table, query, id);
    }
    if forall it <- query :: it.isBi {
      NoShares(docs, tok, ln, table, query, id, false, false);
      NoShares(docs, tok, ln, table, query, id, false, true);
      SameScore(docs, tok, w.(unigram := x), w, ln, table, query, id);
    }
    if forall it <- query :: !it.isMeta {
      NoShares(docs, tok, ln, table, query, id, false, true);
      NoShares(docs, tok, ln, table, query, id, true, true);
      SameScore(docs, tok, w.(metaphone := x), w, ln, table, query, id);
    }
  }

  /** So another bigram weight leaves a query of one-word sentences as it was. */
  lemma OneWordQuery(lang: Lang, text: string, docs: map<Key, string>, tok: Tokenizer, w: Weights, ln: real -> real,
                     table: string, id: int, x: real)
    requires forall s <- Sentences(text) :: |lang.normalize(s)| < 2
    ensures Score(docs, tok, w.(bigram := x), ln, table, Items(lang, text), id) ==
            Score(docs, tok, w, ln, table, Items(lang, text), id)
  {
    TermStream.OneWordEach(lang, Sentences(text));
    WeightsApart(docs, tok, w, ln, table, Items(lang, text), id, x);
  }

  /** Of two records that hold a term, the contributions stand in the ratio of the
      occurrences and against that of the denominators. */
  lemma Proportional(docs: map<Key, string>, tok: Tokenizer, w: Weights, ln: real -> real, table: string, it: Item,
                     a: int, b: int)
    requires it.isMeta || w.literalEnabled
    requires Touched(docs, tok, table, it, a) && Touched(docs, tok, table, it, b)
    ensures var x, y := Contribution(docs, tok, w, ln, table, it, a), Contribution(docs, tok, w, ln, table, it, b);
      var xs, ys := tok(docs[Key(table, a)]), tok(docs[Key(table, b)]);
      x.Some? && y.Some? &&
      x.value * (|LiteralPlaces(xs, it.isBi)| as real * |Places(ys, it.term)| as real) ==
      y.value * (|LiteralPlaces(ys, it.isBi)| as real * |Places(xs, it.term)| as real)
  {
    ContributionExact(docs, tok, w, ln, table, it, a);
    ContributionExact(docs, tok, w, ln, table, it, b);
    hide Contribution, Places, LiteralPlaces, RecordsOf, HoldersOf;
    var xs, ys := tok(docs[Key(table, a)]), tok(docs[Key(table, b)]);
    Cross(WeightOf(w, it.isBi, it.isMeta),
          ln(Over(|RecordsOf(docs, table)| as real, |HoldersOf(docs, tok, table, it.term)| as real)),
          |Places(xs, it.term)| as real, |LiteralPlaces(xs, it.isBi)| as real,
          |Places(ys, it.term)| as real, |LiteralPlaces(ys, it.isBi)| as real);
  }

  lemma Cross(weight: real, idf: real, m: real, p: real, n: real, q: real)
    requires p > 0.0 && q > 0.0
    ensures (weight * (Over(m, p) * idf)) * (p * n) == (weight * (Over(n, q) * idf)) * (q * m)
  {
    OneSide(weight, idf, m, p, n);
    OneSide(weight, idf, n, q, m);
    assert (weight * idf) * (m * n) == (weight * idf) * (n * m);
  }

  lemma OneSide(weight: real, idf: real, m: real, p: real, n: real)
    requires p > 0.0
    ensures (weight * (Over(m, p) * idf)) * (p * n) == (weight * idf) * (m * n)
  {
    var r := m / p;
    assert r * p == m;
    var z := r * idf;
    assert (weight * z) * (p * n) == weight * (z * (p * n));
    assert z * (p * n) == (r * p) * (idf * n);
    assert weight * (m * (idf * n)) == (weight * idf) * (m * n);
  }
}
