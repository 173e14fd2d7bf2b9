/** Building a session context from a recipe: two walk pointers driven by any
    list of layers, a token ceiling, and a reversal. */
module ContextWalk {
  import opened Stamps

  datatype LayerKind = RawTurn | TurnSummary | Episode | ProjectSummary | Decisions | GeneralSearch

  datatype Layer = Layer(kind: LayerKind, limit: int)

  datatype Turn = Turn(user: string, assistant: string, ts: string)

  /** A summary, an episode or a search result. */
  datatype Record = Record(text: string, ts: string)

  datatype Chunk = Chunk(kind: string, text: string, ts: string)

  datatype Recipe = Recipe(layers: seq<Layer>, maxTokens: int, charsPerToken: real)

  /** What the backend answers for one session; `turns` and `summaries` come
      newest first. */
  datatype Source = Source(
    turns: seq<Turn>,
    summaries: seq<Record>,
    episodes: int -> seq<Record>,
    decisions: int -> seq<string>,
    search: (string, int) -> seq<Record>)

  /** The walk. `raws` and `sums` are the positions emitted so far. */
  datatype Walk = Walk(
    turn: nat,
    summary: nat,
    rev: seq<Chunk>,
    consumed: seq<string>,
    raws: seq<nat>,
    sums: seq<nat>)

  const START := Walk(0, 0, [], [], [], [])

  function FormatTurn(t: Turn): string {
    "User: " + t.user + "\n\nAssistant: " + t.assistant
  }

  function RawChunk(t: Turn): Chunk {
    Chunk("raw_turn", FormatTurn(t), t.ts)
  }

  function SummaryChunk(s: Record): Chunk {
    Chunk("turn_summary", s.text, s.ts)
  }

  // ----- The layers -----

  function TakeTurn(src: Source, w: Walk): Walk
    requires w.turn < |src.turns|
  {
    var t := src.turns[w.turn];
    w.(turn := w.turn + 1, rev := w.rev + [RawChunk(t)], consumed := w.consumed + [t.ts], raws := w.raws + [w.turn])
  }

  function RawLayer(src: Source, w: Walk, taken: nat, limit: int): Walk
    decreases |src.turns| - w.turn
  {
    if w.turn < |src.turns| && (limit == 0 || taken < limit) then RawLayer(src, TakeTurn(src, w), taken + 1, limit)
    else w
  }

  /** Moves the turn walk past every turn not older than `ts`. */
  function PassTurns(src: Source, w: Walk, ts: string): Walk
    decreases |src.turns| - w.turn
  {
    if w.turn < |src.turns| && LexLe(ts, src.turns[w.turn].ts) then
      PassTurns(src, w.(turn := w.turn + 1, consumed := w.consumed + [src.turns[w.turn].ts]), ts)
    else w
  }

  function TakeSummary(src: Source, w: Walk): Walk
    requires w.summary < |src.summaries|
  {
    var s := src.summaries[w.summary];
    w.(summary := w.summary + 1, rev := w.rev + [SummaryChunk(s)], sums := w.sums + [w.summary])
  }

  function SummaryLayer(src: Source, w: Walk, taken: nat, limit: int): Walk
    decreases |src.summaries| - w.summary
  {
    if w.summary < |src.summaries| && (limit == 0 || taken < limit) then
      var s := src.summaries[w.summary];
      if s.ts in w.consumed then SummaryLayer(src, w.(summary := w.summary + 1), taken, limit)
      else
        PassKeepsSummary(src, TakeSummary(src, w), s.ts);
        SummaryLayer(src, PassTurns(src, TakeSummary(src, w), s.ts), taken + 1, limit)
    else w
  }

  lemma PassKeepsSummary(src: Source, w: Walk, ts: string)
    ensures PassTurns(src, w, ts).summary == w.summary
    decreases |src.turns| - w.turn
  {
    if w.turn < |src.turns| && LexLe(ts, src.turns[w.turn].ts) {
      PassKeepsSummary(src, w.(turn := w.turn + 1, consumed := w.consumed + [src.turns[w.turn].ts]), ts);
    }
  }

  function Wanted(limit: int, default: int): int {
    if limit > 0 then limit else default
  }

  function EpisodeChunks(es: seq<Record>): seq<Chunk> {
    seq(|es|, i requires 0 <= i < |es| => Chunk("episode", es[i].text, es[i].ts))
  }

  function DecisionChunks(ds: seq<string>): seq<Chunk> {
    seq(|ds|, i requires 0 <= i < |ds| => Chunk("decision", ds[i], ""))
  }

  /** The newest turn's user text, then up to two summaries, line by line. */
  function SearchQuery(src: Source): string {
    var q0 := if src.turns != [] then src.turns[0].user else "";
    var q1 := if |src.summaries| > 0 then Line(q0, src.summaries[0].text) else q0;
    if |src.summaries| > 1 then Line(q1, src.summaries[1].text) else q1
  }

  function Line(query: string, text: string): string {
    if text == "" then query else if query == "" then text else query + "\n" + text
  }

  predicate Carries(rev: seq<Chunk>, text: string) {
    exists c <- rev :: c.text == text
  }

  /** Best first, the results no earlier layer has emitted, up to `wanted`. */
  function Survivors(results: seq<Record>, rev: seq<Chunk>, wanted: int): seq<Record> {
    if results == [] then []
    else
      var before := Survivors(results[..|results| - 1], rev, wanted);
      var r := results[|results| - 1];
      if |before| >= wanted || Carries(rev, r.text) then before else before + [r]
  }

  function SearchChunks(survivors: seq<Record>): seq<Chunk> {
    seq(|survivors|, i requires 0 <= i < |survivors| =>
      var r := survivors[|survivors| - 1 - i]; Chunk("general_search", r.text, r.ts))
  }

  function OtherChunks(src: Source, rev: seq<Chunk>, layer: Layer): seq<Chunk> {
    match layer.kind
    case Episode => EpisodeChunks(src.episodes(Wanted(layer.limit, 1)))
    case Decisions => DecisionChunks(src.decisions(Wanted(layer.limit, 3)))
    case GeneralSearch =>
      var wanted := Wanted(layer.limit, 5);
      if SearchQuery(src) == "" then []
      else SearchChunks(Survivors(src.search(SearchQuery(src), wanted + 8), rev, wanted))
    case _ => []
  }

  function RunLayer(src: Source, w: Walk, layer: Layer): Walk {
    match layer.kind
    case RawTurn => RawLayer(src, w, 0, layer.limit)
    case TurnSummary => SummaryLayer(src, w, 0, layer.limit)
    case _ => w.(rev := w.rev + OtherChunks(src, w.rev, layer))
  }

  function RunLayers(src: Source, layers: seq<Layer>): Walk {
    if layers == [] then START else RunLayer(src, RunLayers(src, layers[..|layers| - 1]), layers[|layers| - 1])
  }

  // ----- The ceiling -----

  function ApproxTokens(text: string, charsPerToken: real): (n: int)
    ensures n >= 0
  {
    var cpt := if charsPerToken <= 0.0 then 4.0 else charsPerToken;
    RatioNonNegative(|text| as real, cpt);
    (|text| as real / cpt).Floor
  }

  lemma RatioNonNegative(a: real, b: real)
    requires a >= 0.0 && b > 0.0
    ensures a / b >= 0.0
  {
  }

  function Total(rev: seq<Chunk>, charsPerToken: real): (n: int)
    ensures n >= 0
  {
    if rev == [] then 0 else Total(rev[..|rev| - 1], charsPerToken) + ApproxTokens(rev[|rev| - 1].text, charsPerToken)
  }

  predicate Fits(rev: seq<Chunk>, recipe: Recipe) {
    recipe.maxTokens <= 0 || Total(rev, recipe.charsPerToken) <= recipe.maxTokens
  }

  /** `kept` chunks are the longest newest-first prefix that fits. */
  ghost predicate LongestFit(rev: seq<Chunk>, recipe: Recipe, kept: nat) {
    kept <= |rev| && Fits(rev[..kept], recipe) && forall k: nat | k <= |rev| && Fits(rev[..k], recipe) :: k <= kept
  }

  lemma {:induction false} TotalGrows(rev: seq<Chunk>, charsPerToken: real, i: nat, j: nat)
    requires i <= j <= |rev|
    ensures Total(rev[..i], charsPerToken) <= Total(rev[..j], charsPerToken)
  {
    if i < j {
      TotalGrows(rev, charsPerToken, i, j - 1);
      assert rev[..j][..j - 1] == rev[..j - 1];
    }
  }

  function Reversed(rev: seq<Chunk>): (r: seq<Chunk>)
    ensures |r| == |rev| && forall i | 0 <= i < |r| :: r[i] == rev[|rev| - 1 - i]
  {
    seq(|rev|, i requires 0 <= i < |rev| => rev[|rev| - 1 - i])
  }

  // ----- The builder -----

  method PassLoop(src: Source, turn0: nat, consumed0: seq<string>, ts: string, ghost w: Walk)
    returns (turn: nat, consumed: seq<string>)
    requires w.turn == turn0 && w.consumed == consumed0
    ensures PassTurns(src, w, ts) == w.(turn := turn, consumed := consumed)
  {
    turn, consumed := turn0, consumed0;
    while turn < |src.turns| && LexLe(ts, src.turns[turn].ts)
      invariant PassTurns(src, w.(turn := turn, consumed := consumed), ts) == PassTurns(src, w, ts)
      decreases |src.turns| - turn
    {
      consumed := consumed + [src.turns[turn].ts];
      turn := turn + 1;
    }
  }

  method QueryLoop(src: Source) returns (query: string)
    ensures query == SearchQuery(src)
  {
    query := "";
    if src.turns != [] && src.turns[0].user != "" { query := query + src.turns[0].user; }
    var i := 0;
    while i < |src.summaries| && i < 2
      invariant 0 <= i <= 2 && i <= |src.summaries|
      invariant var q0 := if src.turns != [] then src.turns[0].user else "";
        query == if i == 0 then q0 else if i == 1 then Line(q0, src.summaries[0].text)
                 else Line(Line(q0, src.summaries[0].text), src.summaries[1].text)
    {
      if src.summaries[i].text != "" {
        if query != "" { query := query + "\n"; }
        query := query + src.summaries[i].text;
      }
      i := i + 1;
    }
  }

  method SurvivorLoop(results: seq<Record>, rev: seq<Chunk>, wanted: int) returns (survivors: seq<Record>)
    ensures survivors == Survivors(results, rev, wanted)
  {
    survivors := [];
    for k := 0 to |results|
      invariant survivors == Survivors(results[..k], rev, wanted)
    {
      assert results[..k + 1][..k] == results[..k];
      if |survivors| >= wanted {
        SurvivorsFull(results, rev, wanted, k);
        return;
      }
      if !Carries(rev, results[k].text) { survivors := survivors + [results[k]]; }
    }
    assert results[..|results|] == results;
  }

  method SearchLoop(src: Source, rev: seq<Chunk>, limit: int) returns (rev': seq<Chunk>)
    ensures rev' == rev + OtherChunks(src, rev, Layer(GeneralSearch, limit))
  {
    hide SearchQuery, Survivors;
    rev' := rev;
    var wanted := if limit > 0 then limit else 5;
    var query := QueryLoop(src);
    if query == "" { return; }
    var survivors := SurvivorLoop(src.search(query, wanted + 8), rev, wanted);
    ghost var all := SearchChunks(survivors);
    var j := |survivors|;
    while j > 0
      invariant 0 <= j <= |survivors|
      invariant rev' == rev + all[..|survivors| - j]
    {
      j := j - 1;
      assert all[|survivors| - 1 - j] == Chunk("general_search", survivors[j].text, survivors[j].ts);
      rev' := rev' + [Chunk("general_search", survivors[j].text, survivors[j].ts)];
    }
    assert all[..|survivors|] == all;
  }

  lemma {:induction false} SurvivorsFull(results: seq<Record>, rev: seq<Chunk>, wanted: int, k: nat)
    requires k <= |results| && |Survivors(results[..k], rev, wanted)| >= wanted
    ensures Survivors(results[..k], rev, wanted) == Survivors(results, rev, wanted)
    decreases |results| - k
  {
    if k == |results| {
      assert results[..k] == results;
    } else {
      assert results[..k + 1][..k] == results[..k];
      SurvivorsFull(results, rev, wanted, k + 1);
    }
  }

  method TurnLoop(src: Source, w: Walk, limit: int) returns (w': Walk)
    ensures w' == RawLayer(src, w, 0, limit)
  {
    var turn: nat, raws: seq<nat> := w.turn, w.raws;
    var rev, consumed, taken := w.rev, w.consumed, 0;
    while turn < |src.turns| && (limit == 0 || taken < limit)
      invariant RawLayer(src, w.(turn := turn, rev := rev, consumed := consumed, raws := raws), taken, limit)
                == RawLayer(src, w, 0, limit)
      decreases |src.turns| - turn
    {
      var t := src.turns[turn];
      raws := raws + [turn];
      turn := turn + 1;
      rev := rev + [Chunk("raw_turn", FormatTurn(t), t.ts)];
      consumed := consumed + [t.ts];
      taken := taken + 1;
    }
    w' := w.(turn := turn, rev := rev, consumed := consumed, raws := raws);
  }

  method SummaryLoop(src: Source, w: Walk, limit: int) returns (w': Walk)
    ensures w' == SummaryLayer(src, w, 0, limit)
  {
    w' := w;
    var taken := 0;
    while w'.summary < |src.summaries| && (limit == 0 || taken < limit)
      invariant SummaryLayer(src, w', taken, limit) == SummaryLayer(src, w, 0, limit)
      decreases |src.summaries| - w'.summary
    {
      var s := src.summaries[w'.summary];
      if s.ts in w'.consumed {
        w' := w'.(summary := w'.summary + 1);
        continue;
      }
      w' := TakeSummary(src, w');
      var turn, consumed := PassLoop(src, w'.turn, w'.consumed, s.ts, w');
      w' := w'.(turn := turn, consumed := consumed);
      taken := taken + 1;
    }
  }

  method EpisodeLoop(es: seq<Record>, rev: seq<Chunk>) returns (rev': seq<Chunk>)
    ensures rev' == rev + EpisodeChunks(es)
  {
    rev' := rev;
    for k := 0 to |es|
      invariant rev' == rev + EpisodeChunks(es)[..k]
    {
      rev' := rev' + [Chunk("episode", es[k].text, es[k].ts)];
    }
    assert EpisodeChunks(es)[..|es|] == EpisodeChunks(es);
  }

  method DecisionLoop(ds: seq<string>, rev: seq<Chunk>) returns (rev': seq<Chunk>)
    ensures rev' == rev + DecisionChunks(ds)
  {
    rev' := rev;
    for k := 0 to |ds|
      invariant rev' == rev + DecisionChunks(ds)[..k]
    {
      rev' := rev' + [Chunk("decision", ds[k], "")];
    }
    assert DecisionChunks(ds)[..|ds|] == DecisionChunks(ds);
  }

  /** The chunks are, oldest first, the longest newest-first prefix of the walk
      that fits the ceiling. */
  method BuildContext(src: Source, recipe: Recipe) returns (chunks: seq<Chunk>)
    ensures exists rev :: Trimmed(RunLayers(src, recipe.layers).rev, recipe, rev) && chunks == Reversed(rev)
  {
    hide RawLayer, SummaryLayer, EpisodeChunks, DecisionChunks, Total, Survivors;
    var w := START;
    for n := 0 to |recipe.layers|
      invariant w == RunLayers(src, recipe.layers[..n])
    {
      assert recipe.layers[..n + 1][..n] == recipe.layers[..n];
      var layer := recipe.layers[n];
      match layer.kind {
        case RawTurn =>
          w := TurnLoop(src, w, layer.limit);
        case TurnSummary =>
          w := SummaryLoop(src, w, layer.limit);
        case Episode =>
          var rev := EpisodeLoop(src.episodes(if layer.limit > 0 then layer.limit else 1), w.rev);
          w := w.(rev := rev);
        case ProjectSummary =>
          assert w.rev + OtherChunks(src, w.rev, layer) == w.rev;
        case Decisions =>
          var rev := DecisionLoop(src.decisions(if layer.limit > 0 then layer.limit else 3), w.rev);
          w := w.(rev := rev);
        case GeneralSearch =>
          assert layer == Layer(GeneralSearch, layer.limit);
          var rev := SearchLoop(src, w.rev, layer.limit);
          w := w.(rev := rev);
      }
    }
    assert recipe.layers[..|recipe.layers|] == recipe.layers;
    var rev := w.rev;
    assert rev[..|rev|] == rev;
    if recipe.maxTokens > 0 {
      rev := Ceiling(rev, recipe);
    } else {
      assert LongestFit(rev, recipe, |rev|);
    }
    chunks := Reversed(rev);
  }

  method Ceiling(rev0: seq<Chunk>, recipe: Recipe) returns (rev: seq<Chunk>)
    requires recipe.maxTokens > 0
    ensures Trimmed(rev0, recipe, rev)
  {
    var total, kept := 0, 0;
    while kept < |rev0|
      invariant 0 <= kept <= |rev0| && total == Total(rev0[..kept], recipe.charsPerToken) && total <= recipe.maxTokens
    {
      assert rev0[..kept + 1][..kept] == rev0[..kept];
      total := total + ApproxTokens(rev0[kept].text, recipe.charsPerToken);
      if total > recipe.maxTokens {
        forall j: nat | j <= |rev0| && Fits(rev0[..j], recipe) ensures j <= kept {
          if j > kept { TotalGrows(rev0, recipe.charsPerToken, kept + 1, j); }
        }
        break;
      }
      kept := kept + 1;
    }
    rev := rev0;
    if kept < |rev| { rev := rev[..kept]; }
    assert rev0[..|rev0|] == rev0;
    assert LongestFit(rev0, recipe, kept) && rev == rev0[..kept];
  }

  /** `rev` is the longest front of `rev0` that fits. */
  ghost predicate Trimmed(rev0: seq<Chunk>, recipe: Recipe, rev: seq<Chunk>) {
    exists k: nat :: LongestFit(rev0, recipe, k) && rev == rev0[..k]
  }

  // ----- What the walk promises -----

  ghost predicate NewestFirst(src: Source) {
    && (forall i, j | 0 <= i < j < |src.turns| :: LexLe(src.turns[j].ts, src.turns[i].ts))
    && (forall i, j | 0 <= i < j < |src.summaries| :: LexLe(src.summaries[j].ts, src.summaries[i].ts))
  }

  function OfKind(rev: seq<Chunk>, kind: string): seq<Chunk> {
    if rev == [] then []
    else OfKind(rev[..|rev| - 1], kind) + if rev[|rev| - 1].kind == kind then [rev[|rev| - 1]] else []
  }

  ghost predicate Increasing(s: seq<nat>, bound: nat) {
    (forall i, j | 0 <= i < j < |s| :: s[i] < s[j]) && forall i | 0 <= i < |s| :: s[i] < bound
  }

  function RawChunks(src: Source, raws: seq<nat>): seq<Chunk>
    requires forall i <- raws :: i < |src.turns|
  {
    seq(|raws|, k requires 0 <= k < |raws| => assert raws[k] in raws; RawChunk(src.turns[raws[k]]))
  }

  function SummaryChunks(src: Source, sums: seq<nat>): seq<Chunk>
    requires forall i <- sums :: i < |src.summaries|
  {
    seq(|sums|, k requires 0 <= k < |sums| => assert sums[k] in sums; SummaryChunk(src.summaries[sums[k]]))
  }

  /** The positions emitted increase, and the raw and summary chunks are theirs. */
  ghost predicate Traced(src: Source, w: Walk) {
    && w.turn <= |src.turns| && w.summary <= |src.summaries|
    && Increasing(w.raws, w.turn) && Increasing(w.sums, w.summary)
    && OfKind(w.rev, "raw_turn") == RawChunks(src, w.raws)
    && OfKind(w.rev, "turn_summary") == SummaryChunks(src, w.sums)
  }

  /** `consumed` holds the timestamps of the turns passed. */
  ghost predicate Consumes(src: Source, w: Walk) {
    && w.turn <= |src.turns|
    && (forall i | 0 <= i < w.turn :: src.turns[i].ts in w.consumed)
    && (forall c <- w.consumed :: exists i | 0 <= i < w.turn :: src.turns[i].ts == c)
  }

  /** No emitted summary shares a timestamp with an emitted turn, and every turn
      still ahead is older than each emitted summary. */
  ghost predicate Apart(src: Source, w: Walk)
    requires w.turn <= |src.turns| && (forall i <- w.raws :: i < |src.turns|) &&
      (forall i <- w.sums :: i < |src.summaries|)
  {
    && (forall s <- w.sums, i <- w.raws :: src.turns[i].ts != src.summaries[s].ts)
    && (forall s <- w.sums, i | w.turn <= i < |src.turns| :: !LexLe(src.summaries[s].ts, src.turns[i].ts))
  }

  /** A turn passed without being emitted was passed by a summary not newer than
      it; every summary visited has its timestamp emitted. */
  ghost predicate Covers(src: Source, w: Walk)
    requires w.turn <= |src.turns| && w.summary <= |src.summaries|
    requires (forall i <- w.raws :: i < |src.turns|) && (forall i <- w.sums :: i < |src.summaries|)
  {
    && (forall i | 0 <= i < w.turn && i !in w.raws :: exists s <- w.sums :: LexLe(src.summaries[s].ts, src.turns[i].ts))
    && (forall p | 0 <= p < w.summary :: Represented(src, w, src.summaries[p].ts))
  }

  ghost predicate Represented(src: Source, w: Walk, ts: string)
    requires (forall i <- w.raws :: i < |src.turns|) && (forall i <- w.sums :: i < |src.summaries|)
  {
    (exists i <- w.raws :: src.turns[i].ts == ts) || (exists s <- w.sums :: src.summaries[s].ts == ts)
  }

  ghost predicate WalkInv(src: Source, w: Walk) {
    Traced(src, w) && Consumes(src, w) && Apart(src, w) && Covers(src, w)
  }

  lemma OfKindSnoc(rev: seq<Chunk>, c: Chunk, kind: string)
    ensures OfKind(rev + [c], kind) == OfKind(rev, kind) + if c.kind == kind then [c] else []
  {
    assert (rev + [c])[..|rev|] == rev;
  }

  lemma RawChunksSnoc(src: Source, raws: seq<nat>, i: nat)
    requires i < |src.turns| && forall k <- raws :: k < |src.turns|
    ensures RawChunks(src, raws + [i]) == RawChunks(src, raws) + [RawChunk(src.turns[i])]
  {
  }

  lemma SummaryChunksSnoc(src: Source, sums: seq<nat>, i: nat)
    requires i < |src.summaries| && forall k <- sums :: k < |src.summaries|
    ensures SummaryChunks(src, sums + [i]) == SummaryChunks(src, sums) + [SummaryChunk(src.summaries[i])]
  {
  }

  lemma TakeTurnTraced(src: Source, w: Walk)
    requires Traced(src, w) && w.turn < |src.turns|
    ensures Traced(src, TakeTurn(src, w))
  {
    hide OfKind;
    OfKindSnoc(w.rev, RawChunk(src.turns[w.turn]), "raw_turn");
    OfKindSnoc(w.rev, RawChunk(src.turns[w.turn]), "turn_summary");
    RawChunksSnoc(src, w.raws, w.turn);
  }

  lemma TakeTurnInv(src: Source, w: Walk)
    requires WalkInv(src, w) && w.turn < |src.turns|
    ensures WalkInv(src, TakeTurn(src, w))
  {
    TakeTurnTraced(src, w);
    TakeTurnConsumes(src, w);
    TakeTurnApart(src, w);
    TakeTurnCovers(src, w);
    hide Consumes, Apart, Covers;
  }

  lemma TakeTurnConsumes(src: Source, w: Walk)
    requires Consumes(src, w) && w.turn < |src.turns|
    ensures Consumes(src, TakeTurn(src, w))
  {
    var w' := TakeTurn(src, w);
    forall c <- w'.consumed ensures exists i | 0 <= i < w'.turn :: src.turns[i].ts == c {
      if c !in w.consumed { assert src.turns[w.turn].ts == c; }
    }
  }

  lemma TakeTurnApart(src: Source, w: Walk)
    requires WalkInv(src, w) && w.turn < |src.turns|
    ensures Traced(src, TakeTurn(src, w)) && Apart(src, TakeTurn(src, w))
  {
    TakeTurnTraced(src, w);
    LexReflexive(src.turns[w.turn].ts);
    hide RawChunks, SummaryChunks, OfKind, Consumes, Covers, LexLe;
  }

  lemma TakeTurnCovers(src: Source, w: Walk)
    requires WalkInv(src, w) && w.turn < |src.turns|
    ensures Traced(src, TakeTurn(src, w)) && Covers(src, TakeTurn(src, w))
  {
    var w' := TakeTurn(src, w);
    TakeTurnTraced(src, w);
    hide RawChunks, SummaryChunks, OfKind, Consumes, Apart, LexLe;
    forall p | 0 <= p < w.summary ensures Represented(src, w', src.summaries[p].ts) {
      assert Represented(src, w, src.summaries[p].ts);
    }
    forall i | 0 <= i < w'.turn && i !in w'.raws
      ensures exists s <- w'.sums :: LexLe(src.summaries[s].ts, src.turns[i].ts)
    {
      assert w'.raws == w.raws + [w.turn];
      assert i !in w.raws && w'.raws[|w.raws|] == w.turn;
    }
  }

  lemma PassTurnsExact(src: Source, w: Walk, ts: string)
    requires w.turn <= |src.turns|
    ensures var r := PassTurns(src, w, ts);
      && r == w.(turn := r.turn, consumed := r.consumed)
      && w.turn <= r.turn <= |src.turns|
      && (forall i | w.turn <= i < r.turn :: LexLe(ts, src.turns[i].ts))
      && (r.turn < |src.turns| ==> !LexLe(ts, src.turns[r.turn].ts))
      && (forall c :: c in r.consumed <==> c in w.consumed || exists i | w.turn <= i < r.turn :: src.turns[i].ts == c)
    decreases |src.turns| - w.turn
  {
    if w.turn < |src.turns| && LexLe(ts, src.turns[w.turn].ts) {
      var next := w.(turn := w.turn + 1, consumed := w.consumed + [src.turns[w.turn].ts]);
      PassTurnsExact(src, next, ts);
      forall c ensures c in PassTurns(src, w, ts).consumed <==>
        c in w.consumed || exists i | w.turn <= i < PassTurns(src, w, ts).turn :: src.turns[i].ts == c
      {
        if c == src.turns[w.turn].ts { assert src.turns[w.turn].ts == c; }
      }
    }
  }

  lemma EmitSummaryTraced(src: Source, w: Walk)
    requires Traced(src, w) && w.summary < |src.summaries|
    ensures Traced(src, PassTurns(src, TakeSummary(src, w), src.summaries[w.summary].ts))
  {
    hide OfKind;
    var s := src.summaries[w.summary];
    OfKindSnoc(w.rev, SummaryChunk(s), "raw_turn");
    OfKindSnoc(w.rev, SummaryChunk(s), "turn_summary");
    SummaryChunksSnoc(src, w.sums, w.summary);
    PassTurnsExact(src, TakeSummary(src, w), s.ts);
    hide PassTurns;
  }

  lemma EmitSummaryInv(src: Source, w: Walk)
    requires WalkInv(src, w) && w.summary < |src.summaries| && NewestFirst(src) && TotalOrder()
    requires src.summaries[w.summary].ts !in w.consumed
    ensures WalkInv(src, PassTurns(src, TakeSummary(src, w), src.summaries[w.summary].ts))
  {
    hide LexLe;
    var ts := src.summaries[w.summary].ts;
    var w' := PassTurns(src, TakeSummary(src, w), ts);
    EmitSummaryTraced(src, w);
    PassTurnsExact(src, TakeSummary(src, w), ts);
    hide Traced, PassTurns;
    assert Consumes(src, w');
    assert w'.sums == w.sums + [w.summary] && w.summary in w'.sums;
    forall i | w'.turn <= i < |src.turns| ensures !LexLe(ts, src.turns[i].ts) {
      assert i > w'.turn ==> LexLe(src.turns[i].ts, src.turns[w'.turn].ts);
    }
    assert Apart(src, w');
    forall p | 0 <= p < w'.summary ensures Represented(src, w', src.summaries[p].ts) {
      if p < w.summary { assert Represented(src, w, src.summaries[p].ts); }
    }
    assert Covers(src, w');
  }

  lemma SkipSummaryInv(src: Source, w: Walk)
    requires WalkInv(src, w) && w.summary < |src.summaries| && NewestFirst(src) && TotalOrder()
    requires src.summaries[w.summary].ts in w.consumed
    ensures WalkInv(src, w.(summary := w.summary + 1))
  {
    hide LexLe, OfKind, RawChunks, SummaryChunks;
    var w', ts := w.(summary := w.summary + 1), src.summaries[w.summary].ts;
    assert Represented(src, w', ts) by {
      var i :| 0 <= i < w.turn && src.turns[i].ts == ts;
      if i !in w.raws {
        var s :| s in w.sums && LexLe(src.summaries[s].ts, src.turns[i].ts);
        assert LexLe(ts, src.summaries[s].ts);
      }
    }
    forall p | 0 <= p < w'.summary ensures Represented(src, w', src.summaries[p].ts) {
      if p < w.summary { assert Represented(src, w, src.summaries[p].ts); }
    }
  }

  lemma {:induction false} RawLayerInv(src: Source, w: Walk, taken: nat, limit: int)
    requires WalkInv(src, w)
    ensures WalkInv(src, RawLayer(src, w, taken, limit))
    decreases |src.turns| - w.turn
  {
    hide WalkInv;
    if w.turn < |src.turns| && (limit == 0 || taken < limit) {
      TakeTurnInv(src, w);
      RawLayerInv(src, TakeTurn(src, w), taken + 1, limit);
    }
  }

  lemma {:induction false} SummaryLayerInv(src: Source, w: Walk, taken: nat, limit: int)
    requires WalkInv(src, w) && NewestFirst(src) && TotalOrder()
    ensures WalkInv(src, SummaryLayer(src, w, taken, limit))
    decreases |src.summaries| - w.summary
  {
    hide WalkInv, NewestFirst, TotalOrder;
    if w.summary < |src.summaries| && (limit == 0 || taken < limit) {
      var s := src.summaries[w.summary];
      if s.ts in w.consumed {
        SkipSummaryInv(src, w);
        SummaryLayerInv(src, w.(summary := w.summary + 1), taken, limit);
      } else {
        EmitSummaryInv(src, w);
        PassKeepsSummary(src, TakeSummary(src, w), s.ts);
        SummaryLayerInv(src, PassTurns(src, TakeSummary(src, w), s.ts), taken + 1, limit);
      }
    }
  }

  lemma {:induction false} OfKindCat(rev: seq<Chunk>, more: seq<Chunk>, kind: string)
    requires forall c <- more :: c.kind != kind
    ensures OfKind(rev + more, kind) == OfKind(rev, kind)
  {
    if more == [] {
      assert rev + more == rev;
    } else {
      OfKindCat(rev, more[..|more| - 1], kind);
      assert (rev + more)[..|rev + more| - 1] == rev + more[..|more| - 1];
    }
  }

  lemma OtherLayerInv(src: Source, w: Walk, layer: Layer)
    requires WalkInv(src, w) && !layer.kind.RawTurn? && !layer.kind.TurnSummary?
    ensures WalkInv(src, RunLayer(src, w, layer))
  {
    hide SearchQuery, Survivors, OfKind;
    var more := OtherChunks(src, w.rev, layer);
    OfKindCat(w.rev, more, "raw_turn");
    OfKindCat(w.rev, more, "turn_summary");
    var w' := w.(rev := w.rev + more);
    forall p | 0 <= p < w.summary ensures Represented(src, w', src.summaries[p].ts) {
      assert Represented(src, w, src.summaries[p].ts);
    }
  }

  lemma {:induction false} LayersInv(src: Source, layers: seq<Layer>)
    requires NewestFirst(src) && TotalOrder()
    ensures WalkInv(src, RunLayers(src, layers))
  {
    if layers != [] {
      hide WalkInv, NewestFirst, TotalOrder;
      LayersInv(src, layers[..|layers| - 1]);
      var w, layer := RunLayers(src, layers[..|layers| - 1]), layers[|layers| - 1];
      if layer.kind.RawTurn? {
        RawLayerInv(src, w, 0, layer.limit);
      } else if layer.kind.TurnSummary? {
        SummaryLayerInv(src, w, 0, layer.limit);
      } else {
        OtherLayerInv(src, w, layer);
      }
    }
  }

  lemma {:induction false} OfKindHas(rev: seq<Chunk>, kind: string, c: Chunk)
    ensures c in OfKind(rev, kind) <==> c in rev && c.kind == kind
  {
    if rev != [] {
      OfKindHas(rev[..|rev| - 1], kind, c);
      assert rev == rev[..|rev| - 1] + [rev[|rev| - 1]];
    }
  }

  /** For every recipe, no timestamp is emitted both as a raw turn and as a
      summary. */
  lemma NeverRawAndSummary(src: Source, layers: seq<Layer>, a: Chunk, b: Chunk)
    requires NewestFirst(src)
    requires a in RunLayers(src, layers).rev && b in RunLayers(src, layers).rev
    requires a.kind == "raw_turn" && b.kind == "turn_summary"
    ensures a.ts != b.ts
  {
    hide RunLayers, OfKind;
    LexIsTotalOrder();
    LayersInv(src, layers);
    var w := RunLayers(src, layers);
    OfKindHas(w.rev, "raw_turn", a);
    OfKindHas(w.rev, "turn_summary", b);
    var i :| 0 <= i < |w.raws| && RawChunks(src, w.raws)[i] == a;
    var s :| 0 <= s < |w.sums| && SummaryChunks(src, w.sums)[s] == b;
    assert w.raws[i] in w.raws && w.sums[s] in w.sums;
  }

  /** The raw chunks are the turns at strictly increasing positions, so no turn
      is emitted twice and they come newest first; likewise the summaries. */
  lemma EachTurnAtMostOnce(src: Source, layers: seq<Layer>) returns (raws: seq<nat>, sums: seq<nat>)
    requires NewestFirst(src)
    ensures Increasing(raws, |src.turns|) && Increasing(sums, |src.summaries|)
    ensures OfKind(RunLayers(src, layers).rev, "raw_turn") == RawChunks(src, raws)
    ensures OfKind(RunLayers(src, layers).rev, "turn_summary") == SummaryChunks(src, sums)
  {
    LexIsTotalOrder();
    LayersInv(src, layers);
    raws, sums := RunLayers(src, layers).raws, RunLayers(src, layers).sums;
  }

  ghost predicate DistinctTimes(src: Source) {
    forall i, j | 0 <= i < j < |src.turns| :: src.turns[i].ts != src.turns[j].ts
  }

  /** A turn the walk went past without emitting it is represented exactly when
      it has a summary: an unsummarized turn newer than an emitted summary drops
      out of the context. */
  lemma PassedTurnRepresented(src: Source, layers: seq<Layer>, i: nat)
    requires NewestFirst(src) && DistinctTimes(src)
    requires i < RunLayers(src, layers).turn && i !in RunLayers(src, layers).raws && i < |src.turns|
    ensures (exists c <- RunLayers(src, layers).rev ::
               (c.kind == "raw_turn" || c.kind == "turn_summary") && c.ts == src.turns[i].ts)
            <==> exists p | 0 <= p < |src.summaries| :: src.summaries[p].ts == src.turns[i].ts
  {
    hide RunLayers, OfKind, LexLe;
    LexIsTotalOrder();
    LayersInv(src, layers);
    var w, ts := RunLayers(src, layers), src.turns[i].ts;
    if c :| c in w.rev && (c.kind == "raw_turn" || c.kind == "turn_summary") && c.ts == ts {
      OfKindHas(w.rev, c.kind, c);
      if c.kind == "turn_summary" {
        var k :| 0 <= k < |w.sums| && SummaryChunks(src, w.sums)[k] == c;
        assert w.sums[k] in w.sums && src.summaries[w.sums[k]].ts == ts;
      }
    }
    if p :| 0 <= p < |src.summaries| && src.summaries[p].ts == ts {
      PassedHasChunk(src, w, i, p);
    }
  }

  lemma PassedHasChunk(src: Source, w: Walk, i: nat, p: nat)
    requires WalkInv(src, w) && NewestFirst(src) && TotalOrder() && DistinctTimes(src)
    requires i < w.turn && i !in w.raws && p < |src.summaries| && src.summaries[p].ts == src.turns[i].ts
    ensures exists c <- w.rev :: (c.kind == "raw_turn" || c.kind == "turn_summary") && c.ts == src.turns[i].ts
  {
    hide OfKind, LexLe, Consumes, Apart, RawChunks;
    var ts := src.turns[i].ts;
    var s :| s in w.sums && LexLe(src.summaries[s].ts, ts);
    if p < w.summary {
      assert Represented(src, w, src.summaries[p].ts);
    } else {
      assert s < p && LexLe(src.summaries[p].ts, src.summaries[s].ts);
    }
    var t :| t in w.sums && src.summaries[t].ts == ts;
    var k :| 0 <= k < |w.sums| && w.sums[k] == t;
    var c := SummaryChunks(src, w.sums)[k];
    OfKindHas(w.rev, "turn_summary", c);
    assert c in w.rev;
  }

  // ----- Chronology -----

  predicate OnWalk(c: Chunk) {
    c.kind == "raw_turn" || c.kind == "turn_summary"
  }

  function WalkTimes(rev: seq<Chunk>): seq<string> {
    if rev == [] then []
    else WalkTimes(rev[..|rev| - 1]) + if OnWalk(rev[|rev| - 1]) then [rev[|rev| - 1].ts] else []
  }

  ghost predicate Descending(times: seq<string>) {
    forall i, j | 0 <= i < j < |times| :: LexLe(times[j], times[i])
  }

  /** Every summary's turn is still in the session. */
  ghost predicate SummariesOfTurns(src: Source) {
    forall s <- src.summaries :: exists i | 0 <= i < |src.turns| :: src.turns[i].ts == s.ts
  }

  ghost predicate Chronological(src: Source, w: Walk) {
    && Descending(WalkTimes(w.rev))
    && forall t <- WalkTimes(w.rev), j | w.turn <= j < |src.turns| :: LexLe(src.turns[j].ts, t)
  }

  lemma WalkTimesSnoc(rev: seq<Chunk>, c: Chunk)
    ensures WalkTimes(rev + [c]) == WalkTimes(rev) + if OnWalk(c) then [c.ts] else []
  {
    assert (rev + [c])[..|rev|] == rev;
  }

  lemma DescendingSnoc(times: seq<string>, t: string)
    requires Descending(times) && forall u <- times :: LexLe(t, u)
    ensures Descending(times + [t])
  {
  }

  lemma {:induction false} WalkTimesCat(rev: seq<Chunk>, more: seq<Chunk>)
    requires forall c <- more :: !OnWalk(c)
    ensures WalkTimes(rev + more) == WalkTimes(rev)
  {
    if more == [] {
      assert rev + more == rev;
    } else {
      WalkTimesCat(rev, more[..|more| - 1]);
      assert (rev + more)[..|rev + more| - 1] == rev + more[..|more| - 1];
    }
  }

  lemma TakeTurnChronological(src: Source, w: Walk)
    requires Chronological(src, w) && w.turn < |src.turns| && NewestFirst(src)
    ensures Chronological(src, TakeTurn(src, w))
  {
    hide WalkTimes, LexLe;
    var t := src.turns[w.turn];
    WalkTimesSnoc(w.rev, RawChunk(t));
    DescendingSnoc(WalkTimes(w.rev), t.ts);
  }

  lemma EmitSummaryChronological(src: Source, w: Walk)
    requires Chronological(src, w) && Consumes(src, w) && w.summary < |src.summaries|
    requires NewestFirst(src) && TotalOrder() && SummariesOfTurns(src)
    requires src.summaries[w.summary].ts !in w.consumed
    ensures Chronological(src, PassTurns(src, TakeSummary(src, w), src.summaries[w.summary].ts))
  {
    hide WalkTimes, LexLe;
    var s := src.summaries[w.summary];
    PassTurnsExact(src, TakeSummary(src, w), s.ts);
    hide PassTurns;
    var w' := PassTurns(src, TakeSummary(src, w), s.ts);
    WalkTimesSnoc(w.rev, SummaryChunk(s));
    var i :| 0 <= i < |src.turns| && src.turns[i].ts == s.ts;
    assert i >= w.turn;
    DescendingSnoc(WalkTimes(w.rev), s.ts);
    forall j | w'.turn <= j < |src.turns| ensures LexLe(src.turns[j].ts, s.ts) {
      assert j > w'.turn ==> LexLe(src.turns[j].ts, src.turns[w'.turn].ts);
    }
  }

  lemma {:induction false} RawLayerChronological(src: Source, w: Walk, taken: nat, limit: int)
    requires Chronological(src, w) && NewestFirst(src)
    ensures Chronological(src, RawLayer(src, w, taken, limit))
    decreases |src.turns| - w.turn
  {
    hide Chronological, NewestFirst;
    if w.turn < |src.turns| && (limit == 0 || taken < limit) {
      TakeTurnChronological(src, w);
      RawLayerChronological(src, TakeTurn(src, w), taken + 1, limit);
    }
  }

  lemma {:induction false} SummaryLayerChronological(src: Source, w: Walk, taken: nat, limit: int)
    requires Chronological(src, w) && WalkInv(src, w) && NewestFirst(src) && TotalOrder() && SummariesOfTurns(src)
    ensures Chronological(src, SummaryLayer(src, w, taken, limit))
    decreases |src.summaries| - w.summary
  {
    hide NewestFirst, TotalOrder, SummariesOfTurns, Traced, Consumes, Apart, Covers, WalkTimes, LexLe;
    if w.summary < |src.summaries| && (limit == 0 || taken < limit) {
      var s := src.summaries[w.summary];
      if s.ts in w.consumed {
        SkipSummaryInv(src, w);
        SummaryLayerChronological(src, w.(summary := w.summary + 1), taken, limit);
      } else {
        EmitSummaryInv(src, w);
        EmitSummaryChronological(src, w);
        PassKeepsSummary(src, TakeSummary(src, w), s.ts);
        SummaryLayerChronological(src, PassTurns(src, TakeSummary(src, w), s.ts), taken + 1, limit);
      }
    }
  }

  /** When every summary belongs to a turn of the session, the raw turns and
      summaries of every recipe come newest first, so the reversed context reads
      in the order of time. */
  lemma {:induction false} WalkIsChronological(src: Source, layers: seq<Layer>)
    requires NewestFirst(src) && SummariesOfTurns(src)
    ensures Chronological(src, RunLayers(src, layers))
  {
    if layers != [] {
      hide WalkInv, NewestFirst, TotalOrder, SummariesOfTurns, WalkTimes, LexLe, SearchQuery, Survivors;
      LexIsTotalOrder();
      var front, layer := layers[..|layers| - 1], layers[|layers| - 1];
      WalkIsChronological(src, front);
      LayersInv(src, front);
      var w := RunLayers(src, front);
      if layer.kind.RawTurn? {
        RawLayerChronological(src, w, 0, layer.limit);
      } else if layer.kind.TurnSummary? {
        SummaryLayerChronological(src, w, 0, layer.limit);
      } else {
        WalkTimesCat(w.rev, OtherChunks(src, w.rev, layer));
      }
    }
  }

  // ----- The relevance layer -----

  /** A general_search layer repeats no text an earlier layer emitted, keeps the
      backend's order and emits no more than it was asked for. */
  lemma {:induction false} SurvivorsAreNew(results: seq<Record>, rev: seq<Chunk>, wanted: int)
    requires wanted >= 0
    ensures var out := Survivors(results, rev, wanted);
      && |out| <= wanted
      && (forall r <- out :: r in results && !Carries(rev, r.text))
      && (|out| < wanted ==> forall r <- results :: r in out || Carries(rev, r.text))
  {
    if results != [] {
      SurvivorsAreNew(results[..|results| - 1], rev, wanted);
      assert results == results[..|results| - 1] + [results[|results| - 1]];
    }
  }
}
