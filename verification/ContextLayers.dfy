/** What each layer of a recipe puts into the context, read off the backend's
    answers: which records, in which order and form. */
module ContextLayers {
  import opened ContextWalk
  import opened Stamps

  // ----- Blocks -----

  /** Records as chunks of one kind, in the backend's order. */
  ghost predicate Listed(block: seq<Chunk>, kind: string, rs: seq<Record>) {
    |block| == |rs| && forall k | 0 <= k < |rs| :: block[k] == Chunk(kind, rs[k].text, rs[k].ts)
  }

  ghost predicate Stated(block: seq<Chunk>, ds: seq<string>) {
    |block| == |ds| && forall k | 0 <= k < |ds| :: block[k] == Chunk("decision", ds[k], "")
  }

  ghost predicate Shown(before: seq<Chunk>, text: string) {
    exists k: nat | k < |before| :: before[k].text == text
  }

  /** `at` are the first `wanted` results whose text no earlier layer shows. */
  ghost predicate Picked(results: seq<Record>, before: seq<Chunk>, wanted: int, at: seq<nat>) {
    && Increasing(at, |results|) && |at| <= wanted
    && (forall k | 0 <= k < |at| :: !Shown(before, results[at[k]].text))
    && forall p: nat | p < |results| && p !in at ::
         Shown(before, results[p].text) || (|at| == wanted && (at != [] ==> at[|at| - 1] < p))
  }

  /** Read backwards, as the finished context is, the block has the picked results
      best first. */
  ghost predicate Found(block: seq<Chunk>, results: seq<Record>, before: seq<Chunk>, wanted: int) {
    exists at :: Picked(results, before, wanted, at) && ReadsBack(block, results, at)
  }

  ghost predicate ReadsBack(block: seq<Chunk>, results: seq<Record>, at: seq<nat>) {
    |block| == |at| && forall k | 0 <= k < |at| && at[k] < |results| ::
      block[|block| - 1 - k] == Chunk("general_search", results[at[k]].text, results[at[k]].ts)
  }

  /** Of a string per line, those that are not empty. */
  function Lines(parts: seq<string>): string {
    if parts == [] then ""
    else
      var front, last := Lines(parts[..|parts| - 1]), parts[|parts| - 1];
      if last == "" then front else (if front == "" then "" else front + "\n") + last
  }

  /** The newest turn's user text and the two newest summaries. */
  function Asked(src: Source): seq<string> {
    (if |src.turns| > 0 then [src.turns[0].user] else []) +
    (if |src.summaries| > 0 then [src.summaries[0].text] else []) +
    (if |src.summaries| > 1 then [src.summaries[1].text] else [])
  }

  lemma LinesMore(parts: seq<string>, last: string)
    ensures Lines(parts + [last]) == Line(Lines(parts), last)
  {
    assert (parts + [last])[..|parts|] == parts;
  }

  lemma LinesOne(text: string)
    ensures Lines([]) == "" && Lines([text]) == text
  {
    assert [text][..0] == [];
  }

  /** A search asks for the latest user text and up to two summaries, line by line. */
  lemma QueryLines(src: Source)
    ensures SearchQuery(src) == Lines(Asked(src))
  {
    hide Lines, Line;
    var u := if |src.turns| > 0 then [src.turns[0].user] else [];
    LinesOne(if |src.turns| > 0 then src.turns[0].user else "");
    if |src.summaries| == 0 {
      assert Asked(src) == u;
    } else if |src.summaries| == 1 {
      LinesMore(u, src.summaries[0].text);
      assert Asked(src) == u + [src.summaries[0].text];
    } else {
      LinesMore(u, src.summaries[0].text);
      LinesMore(u + [src.summaries[0].text], src.summaries[1].text);
    }
  }

  // ----- The walk's own layers -----

  /** As many turns as the layer asks for, all of them without a limit. */
  function TurnEnd(src: Source, turn: nat, limit: int): nat {
    if turn >= |src.turns| || limit < 0 then turn
    else if limit == 0 || turn + limit >= |src.turns| then |src.turns|
    else turn + limit
  }

  /** The next turns, the user's text and the assistant's, newest first. */
  ghost predicate Spoken(src: Source, block: seq<Chunk>, from: nat) {
    from + |block| <= |src.turns| && forall k | 0 <= k < |block| ::
      block[k] == Chunk("raw_turn", "User: " + src.turns[from + k].user +
                                    "\n\nAssistant: " + src.turns[from + k].assistant, src.turns[from + k].ts)
  }

  ghost predicate RawBlock(src: Source, w: Walk, limit: int, t: Walk) {
    && w.rev <= t.rev && t.summary == w.summary && t.turn == TurnEnd(src, w.turn, limit)
    && t.turn == w.turn + |t.rev[|w.rev|..]| && Spoken(src, t.rev[|w.rev|..], w.turn)
  }

  lemma {:induction false} RawLayerBlock(src: Source, w: Walk, taken: nat, limit: int)
    requires w.turn <= |src.turns| && (taken <= limit || (limit <= 0 && taken == 0) || limit == 0)
    ensures RawBlock(src, w, if limit > 0 && limit == taken then -1 else if limit > 0 then limit - taken else limit,
                     RawLayer(src, w, taken, limit))
    decreases |src.turns| - w.turn
  {
    var r := RawLayer(src, w, taken, limit);
    if w.turn < |src.turns| && (limit == 0 || taken < limit) {
      var next := TakeTurn(src, w);
      RawLayerBlock(src, next, taken + 1, limit);
      var c := RawChunk(src.turns[w.turn]);
      assert next.rev[|w.rev|] == c && r.rev[|w.rev|] == c;
      assert r.rev[|w.rev|..] == [c] + r.rev[|next.rev|..];
    } else {
      assert r.rev[|w.rev|..] == [];
    }
  }

  ghost predicate BehindTurn(src: Source, turn: nat, ts: string) {
    exists i: nat | i < turn && i < |src.turns| :: src.turns[i].ts == ts
  }

  /** The summaries at `at` are emitted, those between only when a turn behind the
      walk has their time; the layer stops at its limit, and the turns it passes are
      those not older than one it emitted. */
  ghost predicate SummaryBlock(src: Source, w: Walk, limit: int, t: Walk, at: seq<nat>) {
    Emits(src, w, limit, t, at) && Passes(src, w, t, at)
  }

  ghost predicate Emits(src: Source, w: Walk, limit: int, t: Walk, at: seq<nat>) {
    w.summary <= t.summary <= |src.summaries| && Reads(src, w.rev, t.rev, at) && Stops(src, w, limit, t, at)
  }

  ghost predicate Reads(src: Source, before: seq<Chunk>, rev: seq<Chunk>, at: seq<nat>) {
    before <= rev && |rev| == |before| + |at| && (forall q <- at :: q < |src.summaries|) &&
    forall k | 0 <= k < |at| ::
      at[k] in at &&
      rev[|before| + k] == Chunk("turn_summary", src.summaries[at[k]].text, src.summaries[at[k]].ts)
  }

  ghost predicate Stops(src: Source, w: Walk, limit: int, t: Walk, at: seq<nat>) {
    && (limit < 0 ==> t == w) && (limit > 0 ==> |at| <= limit)
    && (t.summary < |src.summaries| ==> limit < 0 || (limit > 0 && |at| == limit))
    && (limit > 0 && |at| == limit ==> at[limit - 1] + 1 == t.summary)
    && Increasing(at, t.summary) && (forall q <- at :: w.summary <= q)
  }

  ghost predicate Passes(src: Source, w: Walk, t: Walk, at: seq<nat>) {
    && w.turn <= t.turn <= |src.turns| && t.summary <= |src.summaries| && (forall q <- at :: q < |src.summaries|)
    && (forall q | w.summary <= q < t.summary && q !in at :: BehindTurn(src, t.turn, src.summaries[q].ts))
    && (forall q <- at :: !BehindTurn(src, w.turn, src.summaries[q].ts))
    && (forall i | w.turn <= i < t.turn :: PassedBy(src, at, i))
    && (at == [] ==> t.turn == w.turn)
    && (at != [] && t.turn < |src.turns| ==>
          at[|at| - 1] in at && !LexLe(src.summaries[at[|at| - 1]].ts, src.turns[t.turn].ts))
  }

  ghost predicate PassedBy(src: Source, at: seq<nat>, i: nat)
    requires i < |src.turns| && forall q <- at :: q < |src.summaries|
  {
    exists k: nat | k < |at| :: at[k] in at && LexLe(src.summaries[at[k]].ts, src.turns[i].ts)
  }

  /** The limit when `taken` are taken already; negative when nothing more is wanted. */
  function Left(limit: int, taken: nat): int {
    if limit <= 0 then limit else if taken >= limit then -1 else limit - taken
  }

  lemma SummarySkipped(src: Source, w: Walk, limit: int, t: Walk, at: seq<nat>)
    requires w.summary < |src.summaries| && limit >= 0 && BehindTurn(src, w.turn, src.summaries[w.summary].ts)
    requires SummaryBlock(src, w.(summary := w.summary + 1), limit, t, at)
    ensures SummaryBlock(src, w, limit, t, at)
  {
    hide PassedBy, LexLe;
  }

  lemma PassedMore(src: Source, q: nat, at: seq<nat>, i: nat)
    requires i < |src.turns| && q < |src.summaries| && forall p <- at :: p < |src.summaries|
    ensures PassedBy(src, at, i) || LexLe(src.summaries[q].ts, src.turns[i].ts) ==> PassedBy(src, [q] + at, i)
  {
    hide LexLe;
    if LexLe(src.summaries[q].ts, src.turns[i].ts) {
      assert ([q] + at)[0] == q;
    } else if PassedBy(src, at, i) {
      var k: nat :| k < |at| && at[k] in at && LexLe(src.summaries[at[k]].ts, src.turns[i].ts);
      assert ([q] + at)[k + 1] == at[k];
    }
  }

  lemma ReadsMore(src: Source, before: seq<Chunk>, rev: seq<Chunk>, q: nat, at: seq<nat>)
    requires q < |src.summaries| && Reads(src, before + [SummaryChunk(src.summaries[q])], rev, at)
    ensures Reads(src, before, rev, [q] + at)
  {
    var next, more := before + [SummaryChunk(src.summaries[q])], [q] + at;
    assert rev[|before|] == next[|before|];
    forall k | 0 <= k < |more|
      ensures more[k] in more && more[k] < |src.summaries|
      ensures rev[|before| + k] == Chunk("turn_summary", src.summaries[more[k]].text, src.summaries[more[k]].ts)
    {
      if k > 0 {
        assert at[k - 1] in at && more[k] == at[k - 1];
        assert rev[|next| + (k - 1)] == rev[|before| + k];
      }
    }
  }

  lemma StopsMore(src: Source, w: Walk, next: Walk, limit: int, t: Walk, at: seq<nat>)
    requires w.summary < |src.summaries| && limit >= 0 && next.summary == w.summary + 1 <= t.summary
    requires Stops(src, next, Left(limit, 1), t, at) && (limit == 1 ==> at == [])
    ensures Stops(src, w, limit, t, [w.summary] + at)
  {
    var more := [w.summary] + at;
    forall k | 0 <= k < |at| ensures w.summary < at[k] {
      assert at[k] in at;
    }
    assert at != [] ==> more[|more| - 1] == at[|at| - 1];
  }

  lemma EmitsMore(src: Source, w: Walk, limit: int, t: Walk, at: seq<nat>)
    requires w.summary < |src.summaries| && limit >= 0 && w.turn <= |src.turns|
    requires Emits(src, PassTurns(src, TakeSummary(src, w), src.summaries[w.summary].ts), Left(limit, 1), t, at)
    ensures Emits(src, w, limit, t, [w.summary] + at)
  {
    var v := TakeSummary(src, w);
    PassTurnsExact(src, v, src.summaries[w.summary].ts);
    var next := PassTurns(src, v, src.summaries[w.summary].ts);
    hide PassTurns, LexLe;
    ReadsMore(src, w.rev, t.rev, w.summary, at);
    assert limit == 1 ==> t == next && at == [];
    hide Reads, Stops;
    StopsMore(src, w, next, limit, t, at);
  }

  lemma PassesMore(src: Source, w: Walk, t: Walk, at: seq<nat>)
    requires w.summary < |src.summaries| && w.turn <= |src.turns|
    requires !BehindTurn(src, w.turn, src.summaries[w.summary].ts)
    requires Passes(src, PassTurns(src, TakeSummary(src, w), src.summaries[w.summary].ts), t, at)
    ensures Passes(src, w, t, [w.summary] + at)
  {
    var q, ts := w.summary, src.summaries[w.summary].ts;
    PassTurnsExact(src, TakeSummary(src, w), ts);
    hide PassTurns, LexLe, PassedBy;
    var more := [q] + at;
    forall i | w.turn <= i < t.turn ensures PassedBy(src, more, i) {
      PassedMore(src, q, at, i);
    }
    forall p | w.summary <= p < t.summary && p !in more ensures BehindTurn(src, t.turn, src.summaries[p].ts) {
      assert p != q && p !in at;
    }
    forall p <- more ensures !BehindTurn(src, w.turn, src.summaries[p].ts) {
      assert p == q || p in at;
    }
    assert at != [] ==> more[|more| - 1] == at[|at| - 1];
  }

  lemma SummaryStopped(src: Source, w: Walk, limit: int)
    requires w.turn <= |src.turns| && w.summary <= |src.summaries|
    requires w.summary == |src.summaries| || limit < 0
    ensures SummaryBlock(src, w, limit, w, [])
  {
  }

  lemma {:induction false} SummaryLayerBlock(src: Source, w: Walk, taken: nat, limit: int) returns (at: seq<nat>)
    requires Consumes(src, w) && w.summary <= |src.summaries|
    ensures SummaryBlock(src, w, Left(limit, taken), SummaryLayer(src, w, taken, limit), at)
    decreases |src.summaries| - w.summary
  {
    hide Emits, Passes, PassTurns, Consumes;
    ConsumesBound(src, w);
    if w.summary < |src.summaries| && (limit == 0 || taken < limit) {
      var ts := src.summaries[w.summary].ts;
      var t := SummaryLayer(src, w, taken, limit);
      if ts in w.consumed {
        SkipConsumes(src, w);
        at := SummaryLayerBlock(src, w.(summary := w.summary + 1), taken, limit);
        Behind(src, w, ts);
        SummarySkipped(src, w, Left(limit, taken), t, at);
      } else {
        PassKeepsSummary(src, TakeSummary(src, w), ts);
        EmittedConsumes(src, w);
        var rest := SummaryLayerBlock(src, PassTurns(src, TakeSummary(src, w), ts), taken + 1, limit);
        EmitsMore(src, w, Left(limit, taken), t, rest);
        NotBehind(src, w, ts);
        PassesMore(src, w, t, rest);
        at := [w.summary] + rest;
      }
    } else {
      at := [];
      SummaryStopped(src, w, Left(limit, taken));
    }
  }

  lemma ConsumesBound(src: Source, w: Walk)
    requires Consumes(src, w)
    ensures w.turn <= |src.turns|
  {
  }

  lemma SkipConsumes(src: Source, w: Walk)
    requires Consumes(src, w)
    ensures Consumes(src, w.(summary := w.summary + 1))
  {
  }

  lemma Behind(src: Source, w: Walk, ts: string)
    requires Consumes(src, w) && ts in w.consumed
    ensures BehindTurn(src, w.turn, ts)
  {
  }

  lemma NotBehind(src: Source, w: Walk, ts: string)
    requires Consumes(src, w) && ts !in w.consumed
    ensures !BehindTurn(src, w.turn, ts)
  {
  }

  lemma EmittedConsumes(src: Source, w: Walk)
    requires Consumes(src, w) && w.summary < |src.summaries|
    ensures Consumes(src, PassTurns(src, TakeSummary(src, w), src.summaries[w.summary].ts))
  {
    PassTurnsExact(src, TakeSummary(src, w), src.summaries[w.summary].ts);
    hide PassTurns, LexLe;
  }

  // ----- The search layer -----

  ghost predicate Taken(out: seq<Record>, results: seq<Record>, at: seq<nat>) {
    |out| == |at| && forall k | 0 <= k < |at| :: at[k] < |results| && out[k] == results[at[k]]
  }

  lemma TakenMore(out: seq<Record>, results: seq<Record>, at: seq<nat>, r: Record)
    requires Taken(out, results, at)
    ensures Taken(out, results + [r], at) && Taken(out + [r], results + [r], at + [|results|])
  {
  }

  lemma SurvivorsSnoc(results: seq<Record>, r: Record, rev: seq<Chunk>, wanted: int)
    ensures var before := Survivors(results, rev, wanted);
      Survivors(results + [r], rev, wanted) ==
        if |before| >= wanted || Shown(rev, r.text) then before else before + [r]
  {
    assert (results + [r])[..|results|] == results;
    CarriesShown(rev, r.text);
  }

  lemma {:induction false} SurvivorsPicked(results: seq<Record>, rev: seq<Chunk>, wanted: int) returns (at: seq<nat>)
    requires wanted > 0
    ensures Picked(results, rev, wanted, at) && Taken(Survivors(results, rev, wanted), results, at)
  {
    at := [];
    if results != [] {
      var front, r := results[..|results| - 1], results[|results| - 1];
      at := SurvivorsPicked(front, rev, wanted);
      hide Picked, Shown, Survivors, Taken;
      assert results == front + [r];
      SurvivorsSnoc(front, r, rev, wanted);
      PickedMore(front, r, rev, wanted, at);
      TakenMore(Survivors(front, rev, wanted), front, at, r);
      TakenSize(Survivors(front, rev, wanted), front, at);
      if |at| < wanted && !Shown(rev, r.text) { at := at + [|front|]; }
    }
  }

  lemma TakenSize(out: seq<Record>, results: seq<Record>, at: seq<nat>)
    requires Taken(out, results, at)
    ensures |out| == |at|
  {
  }

  lemma CarriesShown(rev: seq<Chunk>, text: string)
    ensures Carries(rev, text) <==> Shown(rev, text)
  {
    if Carries(rev, text) {
      var c :| c in rev && c.text == text;
      var k :| 0 <= k < |rev| && rev[k] == c;
    }
  }

  lemma PickedMore(results: seq<Record>, r: Record, rev: seq<Chunk>, wanted: int, at: seq<nat>)
    requires Picked(results, rev, wanted, at)
    ensures Picked(results + [r], rev, wanted,
                   if |at| < wanted && !Shown(rev, r.text) then at + [|results|] else at)
  {
    hide Shown;
    var more := if |at| < wanted && !Shown(rev, r.text) then at + [|results|] else at;
    forall p: nat | p < |results| + 1 && p !in more
      ensures Shown(rev, (results + [r])[p].text) || (|more| == wanted && (more != [] ==> more[|more| - 1] < p))
    {
      if p < |results| { assert p !in at; }
    }
  }

  lemma SearchRead(survivors: seq<Record>, results: seq<Record>, at: seq<nat>)
    requires Taken(survivors, results, at)
    ensures ReadsBack(SearchChunks(survivors), results, at)
  {
  }

  lemma SearchFound(src: Source, rev: seq<Chunk>, limit: int)
    ensures var block, wanted := OtherChunks(src, rev, Layer(GeneralSearch, limit)), if limit > 0 then limit else 5;
      if Lines(Asked(src)) == "" then block == []
      else Found(block, src.search(Lines(Asked(src)), wanted + 8), rev, wanted)
  {
    QueryLines(src);
    hide Lines, Asked, SearchQuery, Survivors, Picked, Taken, ReadsBack, SearchChunks;
    var wanted := if limit > 0 then limit else 5;
    var results := src.search(Lines(Asked(src)), wanted + 8);
    var at := SurvivorsPicked(results, rev, wanted);
    SearchRead(Survivors(results, rev, wanted), results, at);
  }

  // ----- Layer by layer -----

  /** What a layer does to the walk `w`. */
  ghost predicate Built(src: Source, w: Walk, layer: Layer, t: Walk) {
    w.rev <= t.rev &&
    match layer.kind
    case RawTurn => RawBlock(src, w, layer.limit, t)
    case TurnSummary => exists at :: SummaryBlock(src, w, layer.limit, t, at)
    case ProjectSummary => t == w
    case Episode =>
      Unmoved(w, t) && Listed(t.rev[|w.rev|..], "episode", src.episodes(if layer.limit > 0 then layer.limit else 1))
    case Decisions =>
      Unmoved(w, t) && Stated(t.rev[|w.rev|..], src.decisions(if layer.limit > 0 then layer.limit else 3))
    case GeneralSearch =>
      var wanted := if layer.limit > 0 then layer.limit else 5;
      Unmoved(w, t) &&
      if Lines(Asked(src)) == "" then t.rev == w.rev
      else Found(t.rev[|w.rev|..], src.search(Lines(Asked(src)), wanted + 8), w.rev, wanted)
  }

  ghost predicate Unmoved(w: Walk, t: Walk) {
    t.turn == w.turn && t.summary == w.summary
  }

  lemma LayerBuilt(src: Source, w: Walk, layer: Layer)
    requires Consumes(src, w) && w.summary <= |src.summaries|
    ensures Built(src, w, layer, RunLayer(src, w, layer))
  {
    hide SummaryBlock, RawBlock, Found, Lines, Asked, SearchQuery, Survivors;
    var t := RunLayer(src, w, layer);
    if layer.kind.RawTurn? {
      RawLayerBlock(src, w, 0, layer.limit);
      RawGrows(src, w, layer.limit, t);
    } else if layer.kind.TurnSummary? {
      var at := SummaryLayerBlock(src, w, 0, layer.limit);
      SummaryGrows(src, w, layer.limit, t, at);
    } else if layer.kind.GeneralSearch? {
      assert layer == Layer(GeneralSearch, layer.limit);
      SearchFound(src, w.rev, layer.limit);
      assert t.rev[|w.rev|..] == OtherChunks(src, w.rev, layer);
    } else {
      assert t.rev[|w.rev|..] == OtherChunks(src, w.rev, layer);
    }
  }

  lemma RawGrows(src: Source, w: Walk, limit: int, t: Walk)
    requires RawBlock(src, w, limit, t)
    ensures w.rev <= t.rev
  {
  }

  lemma SummaryGrows(src: Source, w: Walk, limit: int, t: Walk, at: seq<nat>)
    requires SummaryBlock(src, w, limit, t, at)
    ensures w.rev <= t.rev
  {
  }

  lemma {:induction false} RawConsumes(src: Source, w: Walk, taken: nat, limit: int)
    requires Consumes(src, w)
    ensures var t := RawLayer(src, w, taken, limit); Consumes(src, t) && t.summary == w.summary
    decreases |src.turns| - w.turn
  {
    if w.turn < |src.turns| && (limit == 0 || taken < limit) {
      TakeTurnConsumes(src, w);
      hide Consumes;
      RawConsumes(src, TakeTurn(src, w), taken + 1, limit);
    }
  }

  lemma {:induction false} SummariesConsume(src: Source, w: Walk, taken: nat, limit: int)
    requires Consumes(src, w) && w.summary <= |src.summaries|
    ensures var t := SummaryLayer(src, w, taken, limit); Consumes(src, t) && t.summary <= |src.summaries|
    decreases |src.summaries| - w.summary
  {
    if w.summary < |src.summaries| && (limit == 0 || taken < limit) {
      var ts := src.summaries[w.summary].ts;
      if ts in w.consumed {
        SummariesConsume(src, w.(summary := w.summary + 1), taken, limit);
      } else {
        PassKeepsSummary(src, TakeSummary(src, w), ts);
        EmittedConsumes(src, w);
        hide Consumes, PassTurns;
        SummariesConsume(src, PassTurns(src, TakeSummary(src, w), ts), taken + 1, limit);
      }
    }
  }

  lemma {:induction false} LayersConsume(src: Source, layers: seq<Layer>)
    ensures var w := RunLayers(src, layers); Consumes(src, w) && w.summary <= |src.summaries|
  {
    if layers != [] {
      var front, layer := layers[..|layers| - 1], layers[|layers| - 1];
      LayersConsume(src, front);
      var w := RunLayers(src, front);
      if layer.kind.RawTurn? { RawConsumes(src, w, 0, layer.limit); }
      if layer.kind.TurnSummary? { SummariesConsume(src, w, 0, layer.limit); }
    }
  }

  /** Every layer of every recipe puts in what it asks for, in the stated order and
      form, behind what the layers before it put in. */
  lemma LayersExact(src: Source, layers: seq<Layer>, n: nat)
    requires n < |layers|
    ensures RunLayers(src, []).rev == [] && RunLayers(src, []).turn == RunLayers(src, []).summary == 0
    ensures Built(src, RunLayers(src, layers[..n]), layers[n], RunLayers(src, layers[..n + 1]))
  {
    hide Built, Consumes;
    LayersConsume(src, layers[..n]);
    assert layers[..n + 1][..n] == layers[..n];
    LayerBuilt(src, RunLayers(src, layers[..n]), layers[n]);
  }

  /** In the finished context, which is the walk's chunks reversed, a search layer's block
      has the picked results best first. */
  lemma ReadsBestFirst(rev: seq<Chunk>, from: nat, behind: nat, results: seq<Record>, at: seq<nat>)
    requires from <= behind <= |rev| && ReadsBack(rev[from..behind], results, at)
    requires forall k | 0 <= k < |at| :: at[k] < |results|
    ensures forall k | 0 <= k < |at| ::
      Reversed(rev)[|rev| - behind + k] == Chunk("general_search", results[at[k]].text, results[at[k]].ts)
  {
    var block := rev[from..behind];
    forall k | 0 <= k < |at|
      ensures Reversed(rev)[|rev| - behind + k] == Chunk("general_search", results[at[k]].text, results[at[k]].ts)
    {
      assert block[|block| - 1 - k] == rev[behind - 1 - k];
    }
  }

  // ----- Episodes and decisions over a whole recipe -----

  function ChunkPerRecord(kind: string, rs: seq<Record>): seq<Chunk> {
    if rs == [] then []
    else ChunkPerRecord(kind, rs[..|rs| - 1]) + [Chunk(kind, rs[|rs| - 1].text, rs[|rs| - 1].ts)]
  }

  function EpisodesOf(src: Source, layers: seq<Layer>): seq<Chunk> {
    if layers == [] then []
    else
      var l := layers[|layers| - 1];
      EpisodesOf(src, layers[..|layers| - 1]) +
      if l.kind == Episode then ChunkPerRecord("episode", src.episodes(if l.limit > 0 then l.limit else 1)) else []
  }

  function TextsOf(ds: seq<string>): seq<Record> {
    if ds == [] then [] else TextsOf(ds[..|ds| - 1]) + [Record(ds[|ds| - 1], "")]
  }

  function DecisionsOf(src: Source, layers: seq<Layer>): seq<Chunk> {
    if layers == [] then []
    else
      var l := layers[|layers| - 1];
      DecisionsOf(src, layers[..|layers| - 1]) +
      if l.kind == Decisions then ChunkPerRecord("decision", TextsOf(src.decisions(if l.limit > 0 then l.limit else 3)))
      else []
  }

  lemma {:induction false} ListedAll(block: seq<Chunk>, kind: string, rs: seq<Record>)
    requires Listed(block, kind, rs)
    ensures block == ChunkPerRecord(kind, rs) && OfKind(block, kind) == block
  {
    if rs != [] {
      var n := |rs| - 1;
      assert Listed(block[..n], kind, rs[..n]);
      ListedAll(block[..n], kind, rs[..n]);
      assert block == block[..n] + [block[n]];
    }
  }

  lemma {:induction false} TextsListed(block: seq<Chunk>, ds: seq<string>)
    requires Stated(block, ds)
    ensures Listed(block, "decision", TextsOf(ds))
  {
    if ds != [] {
      var n := |ds| - 1;
      assert Stated(block[..n], ds[..n]);
      TextsListed(block[..n], ds[..n]);
    }
  }

  lemma {:induction false} OfKindJoin(rev: seq<Chunk>, more: seq<Chunk>, kind: string)
    ensures OfKind(rev + more, kind) == OfKind(rev, kind) + OfKind(more, kind)
    decreases |more|
  {
    if more == [] {
      assert rev + more == rev;
    } else {
      var front, c := more[..|more| - 1], more[|more| - 1];
      OfKindJoin(rev, front, kind);
      hide OfKind;
      OfKindSnoc(rev + front, c, kind);
      OfKindSnoc(front, c, kind);
      assert rev + more == rev + front + [c] && more == front + [c];
    }
  }

  ghost predicate AllOf(block: seq<Chunk>, kind: string) {
    forall c <- block :: c.kind == kind
  }

  lemma NoneOf(block: seq<Chunk>, kind: string, other: string)
    requires AllOf(block, kind) && kind != other
    ensures OfKind(block, other) == []
  {
    OfKindCat([], block, other);
    assert [] + block == block;
  }

  /** The kind a layer's chunks are of. */
  function KindOf(kind: LayerKind): string {
    match kind
    case RawTurn => "raw_turn"
    case TurnSummary => "turn_summary"
    case Episode => "episode"
    case ProjectSummary => ""
    case Decisions => "decision"
    case GeneralSearch => "general_search"
  }

  lemma BlockKind(src: Source, w: Walk, layer: Layer, t: Walk)
    requires Built(src, w, layer, t)
    ensures AllOf(t.rev[|w.rev|..], KindOf(layer.kind))
  {
    var block := t.rev[|w.rev|..];
    match layer.kind
    case TurnSummary =>
      var at :| SummaryBlock(src, w, layer.limit, t, at);
      SummaryKind(src, w, layer.limit, t, at);
    case GeneralSearch => SearchKind(src, w, layer, t);
    case RawTurn => RawKind(src, w, layer.limit, t);
    case _ =>
  }

  lemma SearchKind(src: Source, w: Walk, layer: Layer, t: Walk)
    requires Built(src, w, layer, t) && layer.kind.GeneralSearch?
    ensures AllOf(t.rev[|w.rev|..], "general_search")
  {
    hide Lines, Asked;
    var block := t.rev[|w.rev|..];
    if block != [] {
      var wanted := if layer.limit > 0 then layer.limit else 5;
      var results := src.search(Lines(Asked(src)), wanted + 8);
      var at :| Picked(results, w.rev, wanted, at) && ReadsBack(block, results, at);
      forall i | 0 <= i < |block| ensures block[i].kind == "general_search" {
        var k := |block| - 1 - i;
        assert at[k] < |results| && block[|block| - 1 - k].kind == "general_search";
      }
    }
  }

  lemma RawKind(src: Source, w: Walk, limit: int, t: Walk)
    requires RawBlock(src, w, limit, t)
    ensures AllOf(t.rev[|w.rev|..], "raw_turn")
  {
  }

  lemma SummaryKind(src: Source, w: Walk, limit: int, t: Walk, at: seq<nat>)
    requires SummaryBlock(src, w, limit, t, at)
    ensures AllOf(t.rev[|w.rev|..], "turn_summary")
  {
    var block := t.rev[|w.rev|..];
    forall i | 0 <= i < |block| ensures block[i].kind == "turn_summary" {
      assert at[i] in at && block[i] == t.rev[|w.rev| + i];
    }
  }

  lemma LayerKinds(src: Source, w: Walk, layer: Layer, t: Walk, kind: string)
    requires Built(src, w, layer, t)
    ensures KindOf(layer.kind) != kind ==> OfKind(t.rev, kind) == OfKind(w.rev, kind)
    ensures layer.kind == Episode && kind == "episode" ==>
      OfKind(t.rev, kind) == OfKind(w.rev, kind) +
        ChunkPerRecord(kind, src.episodes(if layer.limit > 0 then layer.limit else 1))
    ensures layer.kind == Decisions && kind == "decision" ==>
      OfKind(t.rev, kind) == OfKind(w.rev, kind) +
        ChunkPerRecord(kind, TextsOf(src.decisions(if layer.limit > 0 then layer.limit else 3)))
  {
    BlockKind(src, w, layer, t);
    hide RawBlock, SummaryBlock, Found, OfKind, ChunkPerRecord, TextsOf, Asked, Lines, AllOf;
    var block := t.rev[|w.rev|..];
    assert t.rev == w.rev + block;
    OfKindJoin(w.rev, block, kind);
    if KindOf(layer.kind) != kind {
      NoneOf(block, KindOf(layer.kind), kind);
    } else if layer.kind == Episode {
      ListedAll(block, kind, src.episodes(if layer.limit > 0 then layer.limit else 1));
    } else if layer.kind == Decisions {
      var ds := src.decisions(if layer.limit > 0 then layer.limit else 3);
      TextsListed(block, ds);
      ListedAll(block, kind, TextsOf(ds));
    }
  }

  /** The episode chunks are, layer by layer, the session's episodes as the backend
      gives them, one when no limit is set; likewise the decisions, three. */
  lemma {:induction false} EpisodesExact(src: Source, layers: seq<Layer>)
    ensures OfKind(RunLayers(src, layers).rev, "episode") == EpisodesOf(src, layers)
    ensures OfKind(RunLayers(src, layers).rev, "decision") == DecisionsOf(src, layers)
  {
    if layers != [] {
      hide OfKind, Built, RunLayers, ChunkPerRecord, TextsOf;
      var n := |layers| - 1;
      EpisodesExact(src, layers[..n]);
      LayersExact(src, layers, n);
      assert layers[..n + 1] == layers;
      var w, t := RunLayers(src, layers[..n]), RunLayers(src, layers);
      LayerKinds(src, w, layers[n], t, "episode");
      LayerKinds(src, w, layers[n], t, "decision");
    }
  }

  // ----- The ceiling -----

  /** A text counts as many tokens as the characters per token go into it, four when
      the recipe gives none. */
  lemma TokensExact(text: string, charsPerToken: real)
    ensures var n, c := ApproxTokens(text, charsPerToken) as real, if charsPerToken > 0.0 then charsPerToken else 4.0;
      n * c <= |text| as real < n * c + c
  {
    var c := if charsPerToken > 0.0 then charsPerToken else 4.0;
    FloorBounds(|text| as real, c, ApproxTokens(text, charsPerToken) as real);
  }

  lemma FloorBounds(x: real, c: real, n: real)
    requires c > 0.0 && n <= x / c < n + 1.0
    ensures n * c <= x < n * c + c
  {
    var q := x / c;
    AtLeast(x, q, c, n);
    Below(x, q, c, n);
  }

  lemma AtLeast(x: real, q: real, c: real, n: real)
    requires c > 0.0 && x == q * c && n <= q
    ensures n * c <= x
  {
    TimesOrder(n, q, c);
  }

  lemma Below(x: real, q: real, c: real, n: real)
    requires c > 0.0 && x == q * c && q < n + 1.0
    ensures x < n * c + c
  {
    TimesOrder(q, n + 1.0, c);
    assert (n + 1.0) * c == n * c + c;
  }

  lemma TimesOrder(a: real, b: real, c: real)
    requires c > 0.0
    ensures a <= b ==> a * c <= b * c
    ensures a < b ==> a * c < b * c
  {
    if a < b { assert (b - a) * c > 0.0; }
  }

  /** The costs of the chunks add up, and a ceiling is kept exactly when their sum
      does not exceed it. */
  lemma TotalAdds(rev: seq<Chunk>, c: Chunk, recipe: Recipe)
    ensures Total([], recipe.charsPerToken) == 0
    ensures Total(rev + [c], recipe.charsPerToken) ==
            Total(rev, recipe.charsPerToken) + ApproxTokens(c.text, recipe.charsPerToken)
    ensures recipe.maxTokens > 0 ==> (Fits(rev, recipe) <==> Total(rev, recipe.charsPerToken) <= recipe.maxTokens)
    ensures recipe.maxTokens <= 0 ==> Fits(rev, recipe)
  {
    assert (rev + [c])[..|rev|] == rev;
  }
}
