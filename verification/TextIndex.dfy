/** The inverted index with interned terms, and the TF-IDF map it must equal
    when computed straight from the latest text of every record. */
module TextIndex {
  import opened Wrappers
  import opened FtsTokenize

  /** A record of one of the text tables. */
  datatype Key = Key(table: string, id: int)

  datatype Counts = Counts(unigrams: nat, bigrams: nat)

  datatype Weights = Weights(unigram: real, bigram: real, metaphone: real, literalEnabled: bool)

  // ----- Direct TF-IDF over the documents -----

  type Tokenizer = string -> seq<Item>

  function Occurs(items: seq<Item>, term: string): nat {
    if items == [] then 0
    else Occurs(items[..|items| - 1], term) + if items[|items| - 1].term == term then 1 else 0
  }

  /** The number of literal terms, of bigrams or of unigrams: the TF denominator. */
  function Literals(items: seq<Item>, bi: bool): nat {
    if items == [] then 0
    else
      var it := items[|items| - 1];
      Literals(items[..|items| - 1], bi) + if !it.isMeta && it.isBi == bi then 1 else 0
  }

  function Max1(n: nat): nat {
    if n == 0 then 1 else n
  }

  ghost function Holders(docs: map<Key, string>, tok: Tokenizer, table: string, term: string): set<Key> {
    set k <- docs | k.table == table && Occurs(tok(docs[k]), term) > 0
  }

  ghost function Records(docs: map<Key, string>, table: string): set<Key> {
    set k <- docs | k.table == table
  }

  function TermScore(w: Weights, it: Item, count: nat, denom: nat, idf: real): real
    requires denom > 0
  {
    (if it.isBi then w.bigram else w.unigram) * (count as real / denom as real) * idf *
    (if it.isMeta then w.metaphone else 1.0)
  }

  ghost function Idf(docs: map<Key, string>, tok: Tokenizer, ln: real -> real, table: string, term: string): real {
    ln(Max1(|Records(docs, table)|) as real / Max1(|Holders(docs, tok, table, term)|) as real)
  }

  /** What one query term adds to one record, if it touches it at all. */
  ghost function Contribution(docs: map<Key, string>, tok: Tokenizer, w: Weights, ln: real -> real,
                              table: string, it: Item, id: int): Option<real> {
    if (!it.isMeta && !w.literalEnabled) || Key(table, id) !in docs then None
    else
      var items := tok(docs[Key(table, id)]);
      var count, denom := Occurs(items, it.term), Literals(items, it.isBi);
      if count == 0 || denom == 0 then None
      else Some(TermScore(w, it, count, denom, Idf(docs, tok, ln, table, it.term)))
  }

  function Plus(a: Option<real>, b: Option<real>): Option<real> {
    if a.None? then b else if b.None? then a else Some(a.value + b.value)
  }

  ghost function Score(docs: map<Key, string>, tok: Tokenizer, w: Weights, ln: real -> real,
                       table: string, query: seq<Item>, id: int): Option<real> {
    if query == [] then None
    else Plus(Score(docs, tok, w, ln, table, query[..|query| - 1], id),
              Contribution(docs, tok, w, ln, table, query[|query| - 1], id))
  }

  function Lookup(acc: map<int, real>, id: int): Option<real> {
    if id in acc then Some(acc[id]) else None
  }

  ghost predicate Tallies(acc: map<int, real>, docs: map<Key, string>, tok: Tokenizer, w: Weights, ln: real -> real,
                          table: string, query: seq<Item>) {
    forall id :: Lookup(acc, id) == Score(docs, tok, w, ln, table, query, id)
  }

  // ----- What the direct map promises -----

  lemma HoldersAreRecords(docs: map<Key, string>, tok: Tokenizer, table: string, term: string)
    ensures |Holders(docs, tok, table, term)| <= |Records(docs, table)|
  {
    SubsetSize(Holders(docs, tok, table, term), Records(docs, table));
  }

  lemma {:induction false} SubsetSize<T>(a: set<T>, b: set<T>)
    requires a <= b
    ensures |a| <= |b|
  {
    if a != {} {
      var x :| x in a;
      SubsetSize(a - {x}, b - {x});
    }
  }

  lemma ProductNonNegative(a: real, b: real)
    requires a >= 0.0 && b >= 0.0
    ensures a * b >= 0.0
  {
  }

  lemma RatioAtLeastOne(n: nat, d: nat)
    requires 0 < d <= n
    ensures n as real / d as real >= 1.0
  {
  }

  ghost predicate LogLike(ln: real -> real) {
    ln(1.0) == 0.0 && forall x: real, y: real :: 0.0 < x <= y ==> ln(x) <= ln(y)
  }

  ghost predicate NonNegative(w: Weights) {
    w.unigram >= 0.0 && w.bigram >= 0.0 && w.metaphone >= 0.0
  }

  lemma IdfNonNegative(docs: map<Key, string>, tok: Tokenizer, ln: real -> real, table: string, term: string)
    requires LogLike(ln)
    ensures Idf(docs, tok, ln, table, term) >= 0.0
  {
    HoldersAreRecords(docs, tok, table, term);
    RatioAtLeastOne(Max1(|Records(docs, table)|), Max1(|Holders(docs, tok, table, term)|));
  }

  lemma TermScoreNonNegative(w: Weights, it: Item, count: nat, denom: nat, idf: real)
    requires denom > 0 && NonNegative(w) && idf >= 0.0
    ensures TermScore(w, it, count, denom, idf) >= 0.0
  {
    var weight := if it.isBi then w.bigram else w.unigram;
    var tf := count as real / denom as real;
    ProductNonNegative(weight, tf);
    ProductNonNegative(weight * tf, idf);
    ProductNonNegative(weight * tf * idf, if it.isMeta then w.metaphone else 1.0);
  }

  /** Document frequency never exceeds corpus size, so no score is negative. */
  lemma {:induction false} ScoresNonNegative(docs: map<Key, string>, tok: Tokenizer, w: Weights, ln: real -> real,
                                             table: string, query: seq<Item>, id: int)
    requires LogLike(ln) && NonNegative(w)
    ensures var s := Score(docs, tok, w, ln, table, query, id); s.Some? ==> s.value >= 0.0
  {
    hide TermScore, Idf;
    if query != [] {
      ScoresNonNegative(docs, tok, w, ln, table, query[..|query| - 1], id);
      var it := query[|query| - 1];
      if Contribution(docs, tok, w, ln, table, it, id).Some? {
        var items := tok(docs[Key(table, id)]);
        var idf := Idf(docs, tok, ln, table, it.term);
        IdfNonNegative(docs, tok, ln, table, it.term);
        TermScoreNonNegative(w, it, Occurs(items, it.term), Literals(items, it.isBi), idf);
      }
    }
  }

  /** A term every record of the table holds adds nothing. */
  lemma UbiquitousTermScoresZero(docs: map<Key, string>, tok: Tokenizer, w: Weights, ln: real -> real,
                                 table: string, it: Item, id: int)
    requires LogLike(ln) && forall k <- docs | k.table == table :: Occurs(tok(docs[k]), it.term) > 0
    ensures var c := Contribution(docs, tok, w, ln, table, it, id); c.Some? ==> c.value == 0.0
  {
    hide Occurs, Literals;
    assert Holders(docs, tok, table, it.term) == Records(docs, table);
    var n := Max1(|Records(docs, table)|);
    assert n as real / n as real == 1.0;
    assert Idf(docs, tok, ln, table, it.term) == 0.0;
    hide Idf;
  }

  /** Records of other tables are never touched by a query of this one. */
  lemma {:induction false} OtherTablesIgnored(docs: map<Key, string>, tok: Tokenizer, w: Weights, ln: real -> real,
                                              table: string, query: seq<Item>, id: int, other: Key, text: string)
    requires other.table != table
    ensures Score(docs[other := text], tok, w, ln, table, query, id) == Score(docs, tok, w, ln, table, query, id)
  {
    if query != [] {
      var it := query[|query| - 1];
      OtherTablesIgnored(docs, tok, w, ln, table, query[..|query| - 1], id, other, text);
      assert Records(docs[other := text], table) == Records(docs, table);
      assert Holders(docs[other := text], tok, table, it.term) == Holders(docs, tok, table, it.term);
    }
  }

  // ----- The index -----

  /** The contributions c are added to acc for every record of the table but those of `todo`. */
  ghost predicate Added(c: int -> Option<real>, acc: map<int, real>, acc': map<int, real>, table: string,
                        todo: set<Key>) {
    forall id :: Lookup(acc', id) == if Key(table, id) in todo then Lookup(acc, id) else Plus(Lookup(acc, id), c(id))
  }

  lemma AddedNext(c: int -> Option<real>, acc: map<int, real>, acc': map<int, real>, table: string, todo: set<Key>,
                  id: int)
    requires Added(c, acc, acc', table, todo) && Key(table, id) in todo
    ensures c(id).None? ==> Added(c, acc, acc', table, todo - {Key(table, id)})
    ensures c(id).Some? ==>
      Added(c, acc, acc'[id := (if id in acc' then acc'[id] else 0.0) + c(id).value], table, todo - {Key(table, id)})
  {
  }

  lemma AddedAll(c: int -> Option<real>, acc: map<int, real>, acc': map<int, real>, table: string)
    requires Added(c, acc, acc', table, {})
    ensures forall id :: Lookup(acc', id) == Plus(Lookup(acc, id), c(id))
  {
  }

  /** The terms `done` have ids, and byId holds their counts and nothing else. */
  ghost predicate Resolved(terms: map<string, int>, byId: map<int, nat>, counts: map<string, nat>, done: set<string>) {
    && done <= counts.Keys
    && (forall t <- done :: t in terms && terms[t] in byId && byId[terms[t]] == counts[t])
    && forall tid <- byId :: From(terms, tid, done)
  }

  ghost predicate From(terms: map<string, int>, tid: int, done: set<string>) {
    exists t <- done :: t in terms && terms[t] == tid
  }

  lemma ResolvedNext(known: map<string, int>, more: map<string, int>, next: int, byId: map<int, nat>,
                     counts: map<string, nat>, done: set<string>, term: string)
    requires Resolved(known, byId, counts, done) && Interned(more, next)
    requires known.Keys <= more.Keys && forall t <- known :: more[t] == known[t]
    requires term in counts && term !in done && term in more
    ensures more[term] !in byId && Resolved(more, byId[more[term] := counts[term]], counts, done + {term})
  {
    forall tid <- byId ensures tid != more[term] {
      assert From(known, tid, done);
    }
    var byId' := byId[more[term] := counts[term]];
    forall tid <- byId' ensures From(more, tid, done + {term}) {
      if tid == more[term] {
        assert term in done + {term};
      } else {
        assert From(known, tid, done);
        var t :| t in done && t in known && known[t] == tid;
        assert t in done + {term};
      }
    }
  }

  lemma ResolvedNone(terms: map<string, int>, counts: map<string, nat>)
    ensures Resolved(terms, map[], counts, {})
  {
  }

  lemma ResolvedAll(terms: map<string, int>, byId: map<int, nat>, counts: map<string, nat>, items: seq<Item>)
    requires Counted(counts, items) && Resolved(terms, byId, counts, counts.Keys)
    ensures Indexed(byId, items, terms)
  {
    forall tid <- byId ensures Named(tid, items, terms) {
      assert From(terms, tid, counts.Keys);
    }
  }

  ghost predicate Counted(counts: map<string, nat>, items: seq<Item>) {
    forall t :: (t in counts <==> Occurs(items, t) > 0) && (t in counts ==> counts[t] == Occurs(items, t))
  }

  /** The postings of one record are those of `items` and nothing else. */
  ghost predicate Indexed(posted: map<int, nat>, items: seq<Item>, terms: map<string, int>) {
    && (forall t :: Occurs(items, t) > 0 ==> t in terms && terms[t] in posted && posted[terms[t]] == Occurs(items, t))
    && (forall tid <- posted :: Named(tid, items, terms))
  }

  ghost predicate Named(tid: int, items: seq<Item>, terms: map<string, int>) {
    exists t <- terms :: terms[t] == tid && Occurs(items, t) > 0
  }

  ghost predicate Interned(terms: map<string, int>, next: int) {
    && 1 <= next
    && (forall t <- terms :: 0 < terms[t] < next)
    && (forall t <- terms, u <- terms :: terms[t] == terms[u] ==> t == u)
  }

  /** Interning more terms leaves every record's postings right. */
  lemma RowOkGrows(tok: Tokenizer, terms: map<string, int>, more: map<string, int>,
                   counts: Counts, posted: map<int, nat>, text: string)
    requires terms.Keys <= more.Keys && forall t <- terms :: more[t] == terms[t]
    ensures RowOk(tok, terms, counts, posted, text) ==> RowOk(tok, more, counts, posted, text)
  {
    hide Occurs, Literals;
    var items := tok(text);
    if RowOk(tok, terms, counts, posted, text) {
      forall tid <- posted ensures Named(tid, items, more) {
        assert Named(tid, items, terms);
      }
    }
  }

  /** The denominators and postings of one record are those of `text`. */
  ghost predicate RowOk(tok: Tokenizer, terms: map<string, int>, counts: Counts, posted: map<int, nat>, text: string) {
    var items := tok(text);
    counts == Counts(Literals(items, false), Literals(items, true)) && Indexed(posted, items, terms)
  }

  ghost predicate RowsOk(tok: Tokenizer, terms: map<string, int>, rows: map<Key, Counts>,
                         junction: map<Key, map<int, nat>>, docs: map<Key, string>)
  {
    && docs.Keys == rows.Keys && junction.Keys == rows.Keys
    && forall k {:trigger RowOk(tok, terms, rows[k], junction[k], docs[k])} | k in rows ::
         RowOk(tok, terms, rows[k], junction[k], docs[k])
  }

  lemma RowsOkGrows(tok: Tokenizer, terms: map<string, int>, more: map<string, int>, rows: map<Key, Counts>,
                    junction: map<Key, map<int, nat>>, docs: map<Key, string>)
    requires RowsOk(tok, terms, rows, junction, docs)
    requires terms.Keys <= more.Keys && forall t <- terms :: more[t] == terms[t]
    ensures RowsOk(tok, more, rows, junction, docs)
  {
    hide RowOk;
    forall r <- rows ensures RowOk(tok, more, rows[r], junction[r], docs[r]) {
      RowOkGrows(tok, terms, more, rows[r], junction[r], docs[r]);
    }
  }

  lemma RowsOkSet(tok: Tokenizer, terms: map<string, int>, rows: map<Key, Counts>, junction: map<Key, map<int, nat>>,
                  docs: map<Key, string>, k: Key, counts: Counts, posted: map<int, nat>, text: string)
    requires RowsOk(tok, terms, rows, junction, docs)
    ensures RowOk(tok, terms, counts, posted, text) ==>
      RowsOk(tok, terms, rows[k := counts], junction[k := posted], docs[k := text])
  {
    hide RowOk;
    assert rows[k := counts].Keys == rows.Keys + {k};
  }

  lemma RowOkIntro(tok: Tokenizer, terms: map<string, int>, counts: Counts, posted: map<int, nat>, text: string)
    requires var items := tok(text);
      counts == Counts(Literals(items, false), Literals(items, true)) && Indexed(posted, items, terms)
    ensures RowOk(tok, terms, counts, posted, text)
  {
    hide Literals, Indexed;
  }

  lemma NoTerms(counts: map<string, nat>, items: seq<Item>)
    requires Counted(counts, items)
    ensures counts == map[] <==> forall t :: Occurs(items, t) == 0
  {
    if counts == map[] {
      forall t ensures Occurs(items, t) == 0 {
        assert t !in counts;
      }
    } else {
      var t :| t in counts.Keys;
      assert Occurs(items, t) > 0;
    }
  }

  lemma CountedNil()
    ensures Counted(map[], []) && Literals([], false) == 0 && Literals([], true) == 0
  {
  }

  lemma TalliesNil(docs: map<Key, string>, tok: Tokenizer, w: Weights, ln: real -> real, table: string)
    ensures Tallies(map[], docs, tok, w, ln, table, [])
  {
  }

  lemma EmptyRowOk(tok: Tokenizer, terms: map<string, int>)
    requires tok("") == []
    ensures RowOk(tok, terms, Counts(0, 0), map[], "")
  {
  }

  method CountItem(counts: map<string, nat>, ghost seen: seq<Item>, it: Item)
    returns (counts': map<string, nat>, ghost seen': seq<Item>)
    requires Counted(counts, seen)
    ensures seen' == seen + [it] && Counted(counts', seen')
    ensures forall bi :: Literals(seen', bi) == Literals(seen, bi) + if !it.isMeta && it.isBi == bi then 1 else 0
  {
    seen' := seen + [it];
    assert seen'[..|seen|] == seen;
    counts' := counts[it.term := (if it.term in counts then counts[it.term] else 0) + 1];
  }

  /** Counts the terms of one sentence's unigrams, or of its bigrams. */
  method CountTokens(counts: map<string, nat>, ghost seen: seq<Item>, ts: seq<Token>, bi: bool)
    returns (counts': map<string, nat>, literals: nat, ghost seen': seq<Item>)
    requires Counted(counts, seen)
    ensures seen' == seen + TokenStream(ts, bi) && Counted(counts', seen')
    ensures Literals(seen', bi) == Literals(seen, bi) + literals && Literals(seen', !bi) == Literals(seen, !bi)
  {
    hide Counted, Literals, TokenItems;
    counts', literals, seen' := counts, 0, seen;
    for k := 0 to |ts|
      invariant seen' == seen + TokenStream(ts[..k], bi) && Counted(counts', seen')
      invariant Literals(seen', bi) == Literals(seen, bi) + literals && Literals(seen', !bi) == Literals(seen, !bi)
    {
      assert ts[..k + 1][..k] == ts[..k];
      var more;
      counts', more, seen' := CountToken(counts', seen', ts[k], bi);
      literals := literals + more;
    }
    assert ts[..|ts|] == ts;
  }

  method CountToken(counts: map<string, nat>, ghost seen: seq<Item>, t: Token, bi: bool)
    returns (counts': map<string, nat>, literals: nat, ghost seen': seq<Item>)
    requires Counted(counts, seen)
    ensures seen' == seen + TokenItems(t, bi) && Counted(counts', seen')
    ensures Literals(seen', bi) == Literals(seen, bi) + literals && Literals(seen', !bi) == Literals(seen, !bi)
  {
    hide Counted, Literals;
    counts', literals, seen' := counts, 0, seen;
    if t.literal != "" {
      counts', seen' := CountItem(counts', seen', Item(t.literal, false, bi));
      literals := 1;
    }
    if t.meta != "" && (bi ==> '_' in t.meta) {
      counts', seen' := CountItem(counts', seen', Item(t.meta, true, bi));
    }
    assert seen' == seen + TokenItems(t, bi);
  }

  function CountOf(m: map<int, nat>, k: int): nat {
    if k in m then m[k] else 0
  }

  class TextIndex {
    const lang: Lang
    var weights: Weights
    var terms: map<string, int>
    var nextId: int
    /** The base rows with their TF denominators, and the junction rows. */
    var rows: map<Key, Counts>
    var junction: map<Key, map<int, nat>>
    /** The latest indexed text of every row. */
    ghost var docs: map<Key, string>

    /** What a text comes to: its terms, in order. */
    ghost function Tok(): Tokenizer {
      text => Items(lang, text)
    }

    ghost predicate Valid()
      reads this
    {
      && docs.Keys == rows.Keys && junction.Keys == rows.Keys
      && Interned(terms, nextId)
      && RowsOk(Tok(), terms, rows, junction, docs)
    }

    constructor (lang: Lang, weights: Weights)
      ensures Valid() && docs == map[] && this.lang == lang && this.weights == weights
    {
      this.lang, this.weights := lang, weights;
      terms, nextId, rows, junction, docs := map[], 1, map[], map[], map[];
    }

    /** A row enters a text table; it has no terms until it is indexed. */
    method InsertRow(k: Key)
      requires Valid() && k !in docs
      modifies this
      ensures Valid() && docs == old(docs)[k := ""] && weights == old(weights)
    {
      hide RowOk, RowsOk, Items, Interned;
      EmptyText(lang);
      EmptyRowOk(Tok(), terms);
      RowsOkSet(Tok(), terms, rows, junction, docs, k, Counts(0, 0), map[], "");
      rows := rows[k := Counts(0, 0)];
      junction := junction[k := map[]];
      docs := docs[k := ""];
    }

    /** A row leaves its table and takes its junction rows along. */
    method DeleteRow(k: Key)
      requires Valid()
      modifies this
      ensures Valid() && docs == old(docs) - {k} && weights == old(weights)
    {
      hide RowOk;
      rows, junction, docs := rows - {k}, junction - {k}, docs - {k};
    }

    method UpsertTerm(term: string) returns (tid: int)
      requires Interned(terms, nextId)
      modifies this`terms, this`nextId
      ensures Interned(terms, nextId) && term in terms && terms[term] == tid
      ensures terms == if term in old(terms) then old(terms) else old(terms)[term := old(nextId)]
    {
      if term in terms { return terms[term]; }
      tid := nextId;
      terms := terms[term := tid];
      nextId := nextId + 1;
    }

    method CountSentence(counts: map<string, nat>, ghost seen: seq<Item>, sentence: string)
      returns (counts': map<string, nat>, unigrams: nat, bigrams: nat, ghost seen': seq<Item>)
      requires Counted(counts, seen)
      ensures seen' == seen + SentenceItems(lang, sentence) && Counted(counts', seen')
      ensures Literals(seen', false) == Literals(seen, false) + unigrams
      ensures Literals(seen', true) == Literals(seen, true) + bigrams
    {
      hide Counted, Literals, TokenStream, UnigramsOf, BigramsOf;
      var words := lang.normalize(sentence);
      var us := Unigrams(lang, words);
      counts', unigrams, seen' := CountTokens(counts, seen, us, false);
      var bs := Bigrams(lang, words);
      counts', bigrams, seen' := CountTokens(counts', seen', bs, true);
    }

    /** Counts every term of `text`. */
    method CountTerms(text: string) returns (counts: map<string, nat>, unigramCount: nat, bigramCount: nat)
      ensures var items := Items(lang, text);
        Counted(counts, items) && unigramCount == Literals(items, false) && bigramCount == Literals(items, true)
    {
      hide Counted, Literals, SentenceItems, Sentences;
      CountedNil();
      counts, unigramCount, bigramCount := map[], 0, 0;
      ghost var seen := [];
      var sentences := SplitSentences(text);
      for i := 0 to |sentences|
        invariant seen == Stream(lang, sentences[..i]) && Counted(counts, seen)
        invariant unigramCount == Literals(seen, false) && bigramCount == Literals(seen, true)
      {
        assert sentences[..i + 1][..i] == sentences[..i];
        var u, b;
        counts, u, b, seen := CountSentence(counts, seen, sentences[i]);
        unigramCount, bigramCount := unigramCount + u, bigramCount + b;
      }
      assert sentences[..|sentences|] == sentences;
    }

    /** Turns term strings into ids, interning the new ones. */
    method ResolveTerms(counts: map<string, nat>, ghost items: seq<Item>) returns (byId: map<int, nat>)
      requires Interned(terms, nextId) && Counted(counts, items)
      modifies this`terms, this`nextId
      ensures Interned(terms, nextId) && Indexed(byId, items, terms) && (byId == map[] <==> counts == map[])
      ensures old(terms).Keys <= terms.Keys && forall t <- old(terms) :: terms[t] == old(terms)[t]
    {
      hide Occurs, Counted, Resolved;
      byId := map[];
      var todo := counts.Keys;
      assert Resolved(terms, byId, counts, {}) by { ResolvedNone(terms, counts); }
      assert counts.Keys - todo == {};
      while todo != {}
        invariant todo <= counts.Keys && Interned(terms, nextId)
        invariant old(terms).Keys <= terms.Keys && forall t <- old(terms) :: terms[t] == old(terms)[t]
        invariant Resolved(terms, byId, counts, counts.Keys - todo)
        invariant byId == map[] <==> todo == counts.Keys
      {
        var term :| term in todo;
        ghost var known := terms;
        var tid := UpsertTerm(term);
        ResolvedNext(known, terms, nextId, byId, counts, counts.Keys - todo, term);
        assert counts.Keys - (todo - {term}) == (counts.Keys - todo) + {term};
        if tid > 0 {
          byId := byId[tid := CountOf(byId, tid) + counts[term]];
        }
        todo := todo - {term};
      }
      assert counts.Keys - todo == counts.Keys;
      ResolvedAll(terms, byId, counts, items);
    }

    /** Replaces everything the index holds of one record by `text`. A record
        without a row cannot be given terms: the junction insert fails. */
    method IndexRecord(k: Key, text: string) returns (ok: bool)
      requires Valid()
      modifies this
      ensures Valid() && weights == old(weights)
      ensures ok <==> k in old(docs) || forall t :: Occurs(Items(lang, text), t) == 0
      ensures docs == if k in old(docs) then old(docs)[k := text] else old(docs)
    {
      hide RowOk, RowsOk, Items, Occurs, Literals, Indexed, Counted, Interned;
      var counts, unigramCount, bigramCount := CountTerms(text);
      ghost var items := Items(lang, text);
      var byId := ResolveTerms(counts, items);
      RowsOkGrows(Tok(), old(terms), terms, rows, junction, docs);
      NoTerms(counts, items);
      if k !in rows { return byId == map[]; }
      RowOkIntro(Tok(), terms, Counts(unigramCount, bigramCount), byId, text);
      ReplaceRow(k, Counts(unigramCount, bigramCount), byId, text);
      return true;
    }

    method ReplaceRow(k: Key, counts: Counts, byId: map<int, nat>, ghost text: string)
      requires Valid() && k in rows
      modifies this`junction, this`rows, this`docs
      ensures RowOk(Tok(), terms, counts, byId, text) ==> Valid()
      ensures docs == old(docs)[k := text]
    {
      hide RowOk, RowsOk, Interned;
      if RowOk(Tok(), terms, counts, byId, text) {
        RowsOkSet(Tok(), terms, rows, junction, docs, k, counts, byId, text);
      }
      junction := junction[k := byId];
      rows := rows[k := counts];
      docs := docs[k := text];
    }

    function CorpusSize(table: string): nat
      reads this
    {
      |set k <- rows | k.table == table|
    }

    /** The junction rows of a term in a table. */
    function Postings(table: string, tid: int): set<Key>
      reads this
    {
      set k <- junction | k.table == table && tid in junction[k]
    }

    lemma PostingsExact(table: string, term: string)
      requires Valid() && term in terms
      ensures Postings(table, terms[term]) == Holders(docs, Tok(), table, term)
      ensures forall k <- Postings(table, terms[term]) ::
        junction[k][terms[term]] == Occurs(Items(lang, docs[k]), term)
    {
      hide Items, Occurs, Literals;
      forall k <- junction
        ensures terms[term] in junction[k] <==> Occurs(Items(lang, docs[k]), term) > 0
        ensures terms[term] in junction[k] ==> junction[k][terms[term]] == Occurs(Items(lang, docs[k]), term)
      {
        assert RowOk(Tok(), terms, rows[k], junction[k], docs[k]);
        if terms[term] in junction[k] { assert Named(terms[term], Items(lang, docs[k]), terms); }
      }
    }

    lemma UnknownTerm(term: string)
      requires Valid() && term !in terms
      ensures forall k <- docs :: Occurs(Items(lang, docs[k]), term) == 0
    {
      hide Items, Occurs, Literals;
      forall k <- docs ensures Occurs(Items(lang, docs[k]), term) == 0 {
        assert RowOk(Tok(), terms, rows[k], junction[k], docs[k]);
      }
    }

    lemma RowCounts(k: Key, bi: bool)
      requires Valid() && k in docs
      ensures Literals(Items(lang, docs[k]), bi) == if bi then rows[k].bigrams else rows[k].unigrams
    {
      hide Items, Literals, Indexed;
      assert RowOk(Tok(), terms, rows[k], junction[k], docs[k]);
    }

    /** Adds the contribution of one query term to every record it touches. */
    method AddTerm(acc: map<int, real>, table: string, it: Item, n: nat, ln: real -> real)
      returns (acc': map<int, real>)
      requires Valid() && n == Max1(|Records(docs, table)|)
      ensures it.term == "" ==> acc' == acc
      ensures it.term != "" ==>
        forall id :: Lookup(acc', id) == Plus(Lookup(acc, id), Contribution(docs, Tok(), weights, ln, table, it, id))
    {
      hide RowOk, RowsOk, Items, Occurs, Literals, TermScore;
      acc' := acc;
      if it.term == "" { return; }
      if !it.isMeta && !weights.literalEnabled { return; }
      if it.term !in terms {
        UnknownTerm(it.term);
        return;
      }
      var tid := terms[it.term];
      PostingsExact(table, it.term);
      var todo := Postings(table, tid);
      ghost var all := todo;
      var idf := ln(n as real / Max1(|todo|) as real);
      assert idf == Idf(docs, Tok(), ln, table, it.term);
      ghost var ds, ws := docs, weights;
      ghost var c := (id: int) => Contribution(ds, Tok(), ws, ln, table, it, id);
      assert Added(c, acc, acc, table, todo) by {
        forall id | Key(table, id) !in todo ensures c(id).None? {}
      }
      forall k <- todo ensures Posted(c, k, table, tid, it, idf) {
        hide Idf;
        assert k == Key(table, k.id);
        RowCounts(k, it.isBi);
      }
      hide Added, Posted, Valid, Contribution;
      acc' := AddPostings(c, acc, table, tid, todo, it, idf);
      AddedAll(c, acc, acc', table);
    }

    /** The junction row of k, and what it comes to. */
    ghost predicate Posted(c: int -> Option<real>, k: Key, table: string, tid: int, it: Item, idf: real)
      reads this
    {
      k == Key(table, k.id) && k in rows && k in junction && tid in junction[k] &&
      var denom := if it.isBi then rows[k].bigrams else rows[k].unigrams;
      c(k.id) == if denom > 0 then Some(TermScore(weights, it, junction[k][tid], denom, idf)) else None
    }

    method AddPostings(ghost c: int -> Option<real>, acc: map<int, real>, table: string, tid: int, postings: set<Key>,
                       it: Item, idf: real) returns (acc': map<int, real>)
      requires forall k <- postings :: Posted(c, k, table, tid, it, idf)
      requires Added(c, acc, acc, table, postings)
      ensures Added(c, acc, acc', table, {})
    {
      hide Added, TermScore;
      acc' := acc;
      var todo := postings;
      while todo != {}
        invariant todo <= postings && Added(c, acc, acc', table, todo)
      {
        var k :| k in todo;
        assert Posted(c, k, table, tid, it, idf);
        var denom := if it.isBi then rows[k].bigrams else rows[k].unigrams;
        AddedNext(c, acc, acc', table, todo, k.id);
        todo := todo - {k};
        if denom > 0 {
          acc' := acc'[k.id := (if k.id in acc' then acc'[k.id] else 0.0) +
                               TermScore(weights, it, junction[k][tid], denom, idf)];
        }
      }
    }

    /** The scores of a query are the direct TF-IDF map over the latest texts. */
    method ScoreQuery(table: string, query: string, ln: real -> real) returns (acc: map<int, real>)
      requires Valid()
      ensures Tallies(acc, docs, Tok(), weights, ln, table, Items(lang, query))
    {
      hide Tallies, Sentences, SentenceItems, RowOk;
      var n := Max1(CorpusSize(table));
      assert (set k <- rows | k.table == table) == Records(docs, table);
      acc := map[];
      ghost var seen := [];
      TalliesNil(docs, Tok(), weights, ln, table);
      var sentences := SplitSentences(query);
      for i := 0 to |sentences|
        invariant seen == Stream(lang, sentences[..i]) && Tallies(acc, docs, Tok(), weights, ln, table, seen)
      {
        assert sentences[..i + 1][..i] == sentences[..i];
        acc, seen := ScoreSentence(acc, seen, table, sentences[i], n, ln);
      }
      assert sentences[..|sentences|] == sentences;
    }

    method ScoreSentence(acc: map<int, real>, ghost seen: seq<Item>, table: string, sentence: string, n: nat,
                         ln: real -> real)
      returns (acc': map<int, real>, ghost seen': seq<Item>)
      requires Valid() && n == Max1(|Records(docs, table)|)
      requires Tallies(acc, docs, Tok(), weights, ln, table, seen)
      ensures seen' == seen + SentenceItems(lang, sentence) && Tallies(acc', docs, Tok(), weights, ln, table, seen')
    {
      hide Tallies, Valid, Records, TokenStream, UnigramsOf, BigramsOf;
      var words := lang.normalize(sentence);
      var us := Unigrams(lang, words);
      acc', seen' := ScoreTokens(acc, seen, table, us, false, n, ln);
      var bs := Bigrams(lang, words);
      acc', seen' := ScoreTokens(acc', seen', table, bs, true, n, ln);
    }

    method ScoreTokens(acc: map<int, real>, ghost seen: seq<Item>, table: string, ts: seq<Token>, bi: bool,
                       n: nat, ln: real -> real)
      returns (acc': map<int, real>, ghost seen': seq<Item>)
      requires Valid() && n == Max1(|Records(docs, table)|)
      requires Tallies(acc, docs, Tok(), weights, ln, table, seen)
      ensures seen' == seen + TokenStream(ts, bi) && Tallies(acc', docs, Tok(), weights, ln, table, seen')
    {
      hide Tallies, Valid, Records;
      acc', seen' := acc, seen;
      for k := 0 to |ts|
        invariant seen' == seen + TokenStream(ts[..k], bi) && Tallies(acc', docs, Tok(), weights, ln, table, seen')
      {
        assert ts[..k + 1][..k] == ts[..k];
        hide TokenItems;
        acc', seen' := ScoreToken(acc', seen', table, ts[k], bi, n, ln);
      }
      assert ts[..|ts|] == ts;
    }

    method ScoreToken(acc: map<int, real>, ghost seen: seq<Item>, table: string, t: Token, bi: bool,
                      n: nat, ln: real -> real)
      returns (acc': map<int, real>, ghost seen': seq<Item>)
      requires Valid() && n == Max1(|Records(docs, table)|)
      requires Tallies(acc, docs, Tok(), weights, ln, table, seen)
      ensures seen' == seen + TokenItems(t, bi) && Tallies(acc', docs, Tok(), weights, ln, table, seen')
    {
      hide Tallies, Valid, Records;
      acc', seen' := ScoreItem(acc, seen, table, Item(t.literal, false, bi), n, ln);
      if bi ==> t.meta != "" && '_' in t.meta {
        acc', seen' := ScoreItem(acc', seen', table, Item(t.meta, true, bi), n, ln);
      }
      assert seen' == seen + TokenItems(t, bi);
    }

    method ScoreItem(acc: map<int, real>, ghost seen: seq<Item>, table: string, it: Item, n: nat, ln: real -> real)
      returns (acc': map<int, real>, ghost seen': seq<Item>)
      requires Valid() && n == Max1(|Records(docs, table)|)
      requires Tallies(acc, docs, Tok(), weights, ln, table, seen)
      ensures seen' == seen + if it.term == "" then [] else [it]
      ensures Tallies(acc', docs, Tok(), weights, ln, table, seen')
    {
      hide Valid, Records, Contribution;
      acc' := AddTerm(acc, table, it, n, ln);
      seen' := seen + if it.term == "" then [] else [it];
      if it.term == "" {
        assert seen' == seen;
      } else {
        assert seen'[..|seen|] == seen;
        forall id ensures Lookup(acc', id) == Score(docs, Tok(), weights, ln, table, seen', id) {
          assert Lookup(acc, id) == Score(docs, Tok(), weights, ln, table, seen, id);
        }
      }
    }
  }
}
