/** The context walk over turns that are not newest first. The rows are ordered by
    epoch but compared by their local time as text; on the night the clock goes
    back the two disagree. */
module ContextDisorder {
  import opened Stamps
  import opened ContextWalk

  /** A turn of the summary's own time stands behind an older one. */
  ghost predicate Inverted(src: Source, s: nat, i: nat, j: nat) {
    s < |src.summaries| && i < j < |src.turns| &&
    !LexLe(src.summaries[s].ts, src.turns[i].ts) && src.turns[j].ts == src.summaries[s].ts
  }

  /** A time comes out both as a raw turn and as a summary. */
  ghost predicate BothWays(src: Source, layers: seq<Layer>, a: Chunk, b: Chunk) {
    a in RunLayers(src, layers).rev && b in RunLayers(src, layers).rev &&
    a.kind == "raw_turn" && b.kind == "turn_summary" && a.ts == b.ts
  }

  // ----- The fewest turns a recipe can have behind it -----

  /** The position of the first turn of this time; the number of turns if there is none. */
  function FirstOf(turns: seq<Turn>, ts: string): (p: nat)
    ensures p <= |turns|
    ensures forall k | 0 <= k < p :: turns[k].ts != ts
    ensures p < |turns| ==> turns[p].ts == ts
  {
    if turns == [] || turns[0].ts == ts then 0 else 1 + FirstOf(turns[1..], ts)
  }

  /** Where the turn walk stands after passing, from `c`, every turn not older than `ts`. */
  function PassEnd(src: Source, c: nat, ts: string): nat {
    PassTurns(src, START.(turn := c), ts).turn
  }

  /** The fewest turns behind the walk when it comes to summary `s`: a summary of a
      stored turn is best skipped by emitting turns up to its own, any other passes
      the turns not older than it. */
  function Fewest(src: Source, s: nat): nat
    requires s <= |src.summaries|
  {
    if s == 0 then 0
    else
      var c, ts := Fewest(src, s - 1), src.summaries[s - 1].ts;
      var p := FirstOf(src.turns, ts);
      if p < c then c
      else if p < |src.turns| then p + 1
      else PassEnd(src, c, ts)
  }

  /** Summary `s` can be emitted with a turn of its time behind an older one, and
      both still ahead. */
  ghost predicate Exposed(src: Source, s: nat, i: nat, j: nat) {
    Inverted(src, s, i, j) && Fewest(src, s) <= i && FirstOf(src.turns, src.summaries[s].ts) >= Fewest(src, s)
  }

  ghost predicate NoneExposed(src: Source) {
    forall s, i, j :: !Exposed(src, s, i, j)
  }

  // ----- Unless one is exposed, no time comes out both ways -----

  /** No turn emitted or still ahead has the time of an emitted summary. */
  ghost predicate Alone(src: Source, w: Walk)
    requires w.turn <= |src.turns| && (forall i <- w.raws :: i < |src.turns|) &&
      (forall i <- w.sums :: i < |src.summaries|)
  {
    && (forall s <- w.sums, i <- w.raws :: src.turns[i].ts != src.summaries[s].ts)
    && (forall s <- w.sums, i | w.turn <= i < |src.turns| :: src.turns[i].ts != src.summaries[s].ts)
  }

  ghost predicate LooseInv(src: Source, w: Walk) {
    Traced(src, w) && Consumes(src, w) && Alone(src, w) && Fewest(src, w.summary) <= w.turn
  }

  lemma TakeTurnLoose(src: Source, w: Walk)
    requires LooseInv(src, w) && w.turn < |src.turns|
    ensures LooseInv(src, TakeTurn(src, w))
  {
    TakeTurnTraced(src, w);
    TakeTurnConsumes(src, w);
    hide OfKind, RawChunks, SummaryChunks, Consumes;
    var w' := TakeTurn(src, w);
    forall s <- w'.sums, i <- w'.raws ensures src.turns[i].ts != src.summaries[s].ts {
      assert i in w.raws || i == w.turn;
    }
  }

  lemma NotBehind(src: Source, w: Walk, ts: string)
    requires LooseInv(src, w) && ts !in w.consumed
    ensures FirstOf(src.turns, ts) >= w.turn && Fewest(src, w.summary) <= w.turn <= |src.turns|
  {
    hide Traced, Alone;
  }

  /** Emitting an unexposed summary leaves no turn of its time ahead. */
  lemma EmitFewest(src: Source, w: Walk)
    requires LooseInv(src, w) && w.summary < |src.summaries| && NoneExposed(src)
    requires src.summaries[w.summary].ts !in w.consumed
    ensures var ts := src.summaries[w.summary].ts;
      var w' := PassTurns(src, TakeSummary(src, w), ts);
      && (forall i | w'.turn <= i < |src.turns| :: src.turns[i].ts != ts)
      && w'.summary == w.summary + 1 && Fewest(src, w'.summary) <= w'.turn
  {
    hide LooseInv, PassTurns, NoneExposed, Fewest, FirstOf;
    var ts := src.summaries[w.summary].ts;
    PassKeepsSummary(src, TakeSummary(src, w), ts);
    NotBehind(src, w, ts);
    EmitLeavesNone(src, w.summary, TakeSummary(src, w));
    PassesFewest(src, w.summary, TakeSummary(src, w));
  }

  lemma EmitLeavesNone(src: Source, s: nat, v: Walk)
    requires s < |src.summaries| && NoneExposed(src) && Fewest(src, s) <= v.turn <= |src.turns|
    requires FirstOf(src.turns, src.summaries[s].ts) >= v.turn
    ensures forall i | PassTurns(src, v, src.summaries[s].ts).turn <= i < |src.turns| ::
      src.turns[i].ts != src.summaries[s].ts
  {
    var ts := src.summaries[s].ts;
    var w' := PassTurns(src, v, ts);
    PassTurnsExact(src, v, ts);
    LexReflexive(ts);
    hide LexLe, PassTurns, Fewest, FirstOf;
    forall i | w'.turn <= i < |src.turns| ensures src.turns[i].ts != ts {
      if i > w'.turn { assert !Exposed(src, s, w'.turn, i); }
    }
  }

  lemma PassesFewest(src: Source, s: nat, v: Walk)
    requires s < |src.summaries| && Fewest(src, s) <= v.turn <= |src.turns|
    requires FirstOf(src.turns, src.summaries[s].ts) >= v.turn
    requires forall i | PassTurns(src, v, src.summaries[s].ts).turn <= i < |src.turns| ::
      src.turns[i].ts != src.summaries[s].ts
    ensures Fewest(src, s + 1) <= PassTurns(src, v, src.summaries[s].ts).turn
  {
    var ts := src.summaries[s].ts;
    PassTurnsExact(src, v, ts);
    PassTurnsExact(src, START.(turn := Fewest(src, s)), ts);
    hide LexLe, PassTurns;
  }

  lemma EmitConsumes(src: Source, w: Walk)
    requires Consumes(src, w) && w.summary < |src.summaries|
    ensures var w' := PassTurns(src, TakeSummary(src, w), src.summaries[w.summary].ts);
      Consumes(src, w') && w'.sums == w.sums + [w.summary] && w'.raws == w.raws && w'.turn >= w.turn
  {
    PassTurnsExact(src, TakeSummary(src, w), src.summaries[w.summary].ts);
    hide PassTurns, LexLe;
  }

  lemma TracedIn(src: Source, w: Walk)
    requires Traced(src, w)
    ensures (forall i <- w.raws :: i < |src.turns|) && (forall i <- w.sums :: i < |src.summaries|)
    ensures w.turn <= |src.turns|
    ensures Consumes(src, w) ==> forall i <- w.raws :: src.turns[i].ts in w.consumed
  {
    hide OfKind;
  }

  lemma EmitSummaryLoose(src: Source, w: Walk)
    requires LooseInv(src, w) && w.summary < |src.summaries| && NoneExposed(src)
    requires src.summaries[w.summary].ts !in w.consumed
    ensures LooseInv(src, PassTurns(src, TakeSummary(src, w), src.summaries[w.summary].ts))
  {
    hide PassTurns, Fewest, NoneExposed, TakeSummary, Traced, Consumes;
    var ts := src.summaries[w.summary].ts;
    EmitSummaryTraced(src, w);
    EmitConsumes(src, w);
    EmitFewest(src, w);
    TracedIn(src, w);
    TracedIn(src, PassTurns(src, TakeSummary(src, w), ts));
    var w' := PassTurns(src, TakeSummary(src, w), ts);
    forall s <- w'.sums, i <- w'.raws ensures src.turns[i].ts != src.summaries[s].ts {
      assert s in w.sums || s == w.summary;
    }
    forall s <- w'.sums, i | w'.turn <= i < |src.turns| ensures src.turns[i].ts != src.summaries[s].ts {
      assert s in w.sums || s == w.summary;
    }
  }

  lemma SkipSummaryLoose(src: Source, w: Walk)
    requires LooseInv(src, w) && w.summary < |src.summaries| && src.summaries[w.summary].ts in w.consumed
    ensures LooseInv(src, w.(summary := w.summary + 1))
  {
    hide OfKind, RawChunks, SummaryChunks;
    assert FirstOf(src.turns, src.summaries[w.summary].ts) < w.turn;
  }

  lemma {:induction false} RawLayerLoose(src: Source, w: Walk, taken: nat, limit: int)
    requires LooseInv(src, w)
    ensures LooseInv(src, RawLayer(src, w, taken, limit))
    decreases |src.turns| - w.turn
  {
    hide LooseInv;
    if w.turn < |src.turns| && (limit == 0 || taken < limit) {
      TakeTurnLoose(src, w);
      RawLayerLoose(src, TakeTurn(src, w), taken + 1, limit);
    }
  }

  lemma {:induction false} SummaryLayerLoose(src: Source, w: Walk, taken: nat, limit: int)
    requires LooseInv(src, w) && NoneExposed(src)
    ensures LooseInv(src, SummaryLayer(src, w, taken, limit))
    decreases |src.summaries| - w.summary
  {
    hide LooseInv, NoneExposed;
    if w.summary < |src.summaries| && (limit == 0 || taken < limit) {
      var s := src.summaries[w.summary];
      if s.ts in w.consumed {
        SkipSummaryLoose(src, w);
        SummaryLayerLoose(src, w.(summary := w.summary + 1), taken, limit);
      } else {
        EmitSummaryLoose(src, w);
        PassKeepsSummary(src, TakeSummary(src, w), s.ts);
        SummaryLayerLoose(src, PassTurns(src, TakeSummary(src, w), s.ts), taken + 1, limit);
      }
    }
  }

  lemma OtherLayerLoose(src: Source, w: Walk, layer: Layer)
    requires LooseInv(src, w) && !layer.kind.RawTurn? && !layer.kind.TurnSummary?
    ensures LooseInv(src, RunLayer(src, w, layer))
  {
    hide SearchQuery, Survivors, OfKind;
    var more := OtherChunks(src, w.rev, layer);
    OfKindCat(w.rev, more, "raw_turn");
    OfKindCat(w.rev, more, "turn_summary");
  }

  lemma {:induction false} LayersLoose(src: Source, layers: seq<Layer>)
    requires NoneExposed(src)
    ensures LooseInv(src, RunLayers(src, layers))
  {
    if layers != [] {
      hide LooseInv, NoneExposed;
      LayersLoose(src, layers[..|layers| - 1]);
      var w, layer := RunLayers(src, layers[..|layers| - 1]), layers[|layers| - 1];
      if layer.kind.RawTurn? {
        RawLayerLoose(src, w, 0, layer.limit);
      } else if layer.kind.TurnSummary? {
        SummaryLayerLoose(src, w, 0, layer.limit);
      } else {
        OtherLayerLoose(src, w, layer);
      }
    }
  }

  lemma TimesApart(src: Source, layers: seq<Layer>, a: Chunk, b: Chunk)
    requires NoneExposed(src)
    requires a in RunLayers(src, layers).rev && b in RunLayers(src, layers).rev
    requires a.kind == "raw_turn" && b.kind == "turn_summary"
    ensures a.ts != b.ts
  {
    hide RunLayers, OfKind, NoneExposed;
    LayersLoose(src, layers);
    var w := RunLayers(src, layers);
    OfKindHas(w.rev, "raw_turn", a);
    OfKindHas(w.rev, "turn_summary", b);
    var i :| 0 <= i < |w.raws| && RawChunks(src, w.raws)[i] == a;
    var s :| 0 <= s < |w.sums| && SummaryChunks(src, w.sums)[s] == b;
    assert w.raws[i] in w.raws && w.sums[s] in w.sums;
  }

  lemma OneWayUnexposed(src: Source, layers: seq<Layer>, a: Chunk, b: Chunk)
    requires NoneExposed(src)
    ensures !BothWays(src, layers, a, b)
  {
    hide RunLayers, NoneExposed;
    var w := RunLayers(src, layers);
    if a in w.rev && b in w.rev && a.kind == "raw_turn" && b.kind == "turn_summary" {
      TimesApart(src, layers, a, b);
    }
  }

  /** Without an inversion, sorted or not, no recipe emits a time both ways. */
  lemma OneWayWithoutInversion(src: Source, layers: seq<Layer>, a: Chunk, b: Chunk)
    requires forall s, i, j :: !Inverted(src, s, i, j)
    ensures !BothWays(src, layers, a, b)
  {
    hide RunLayers, Fewest, FirstOf;
    forall s, i, j ensures !Exposed(src, s, i, j) {
      assert !Inverted(src, s, i, j);
    }
    OneWayUnexposed(src, layers, a, b);
  }

  // ----- With one exposed, a recipe does -----

  lemma {:induction false} RawLayerAll(src: Source, w: Walk, taken: nat)
    requires w.turn <= |src.turns|
    ensures var r := RawLayer(src, w, taken, 0);
      w.rev <= r.rev && forall j | w.turn <= j < |src.turns| :: RawChunk(src.turns[j]) in r.rev
    decreases |src.turns| - w.turn
  {
    if w.turn < |src.turns| {
      var next := TakeTurn(src, w);
      RawLayerAll(src, next, taken + 1);
      assert next.rev[|w.rev|] == RawChunk(src.turns[w.turn]);
      assert RawChunk(src.turns[w.turn]) in next.rev;
    }
  }

  /** A walk that can emit summary `s` next, with the fewest turns behind it. */
  ghost predicate Ready(src: Source, w: Walk, s: nat) {
    && s <= |src.summaries| && w.turn == Fewest(src, s) && Consumes(src, w) && w.summary <= s
    && forall t | w.summary <= t < s :: src.summaries[t].ts in w.consumed
  }

  lemma {:induction false} RawLayerTakes(src: Source, w: Walk, taken: nat, limit: nat)
    requires Consumes(src, w) && taken <= limit && limit > 0 && w.turn + (limit - taken) <= |src.turns|
    ensures var r := RawLayer(src, w, taken, limit);
      && Consumes(src, r) && r.turn == w.turn + (limit - taken) && r.summary == w.summary
      && forall c <- w.consumed :: c in r.consumed
    decreases limit - taken
  {
    if taken < limit {
      TakeTurnConsumes(src, w);
      hide Consumes;
      RawLayerTakes(src, TakeTurn(src, w), taken + 1, limit);
    }
  }

  /** A summary layer of one skips what is consumed and emits the next. */
  lemma {:induction false} SummaryLayerEmits(src: Source, w: Walk, s: nat)
    requires w.summary <= s < |src.summaries| && src.summaries[s].ts !in w.consumed
    requires forall t | w.summary <= t < s :: src.summaries[t].ts in w.consumed
    ensures SummaryLayer(src, w, 0, 1) == PassTurns(src, TakeSummary(src, w.(summary := s)), src.summaries[s].ts)
    decreases s - w.summary
  {
    if w.summary < s {
      SummaryLayerEmits(src, w.(summary := w.summary + 1), s);
      assert w.(summary := w.summary + 1).(summary := s) == w.(summary := s);
    } else {
      var passed := PassTurns(src, TakeSummary(src, w), src.summaries[s].ts);
      assert SummaryLayer(src, passed, 1, 1) == passed;
      assert w.(summary := s) == w;
    }
  }

  lemma RunMore(src: Source, layers: seq<Layer>, layer: Layer)
    ensures RunLayers(src, layers + [layer]) == RunLayer(src, RunLayers(src, layers), layer)
  {
    assert (layers + [layer])[..|layers|] == layers;
  }

  lemma StartReady(src: Source)
    ensures Ready(src, RunLayers(src, []), 0)
  {
  }

  /** Turns up to that of summary `s`, so that it is skipped. */
  lemma ReadyBySkip(src: Source, w: Walk, s: nat)
    requires Ready(src, w, s) && s < |src.summaries|
    requires w.turn <= FirstOf(src.turns, src.summaries[s].ts) < |src.turns|
    ensures Ready(src, RawLayer(src, w, 0, FirstOf(src.turns, src.summaries[s].ts) + 1 - w.turn), s + 1)
  {
    hide RawLayer;
    RawLayerTakes(src, w, 0, FirstOf(src.turns, src.summaries[s].ts) + 1 - w.turn);
  }

  lemma ReadyByEmitting(src: Source, w: Walk, s: nat)
    requires Ready(src, w, s) && s < |src.summaries| && FirstOf(src.turns, src.summaries[s].ts) == |src.turns|
    ensures Ready(src, SummaryLayer(src, w, 0, 1), s + 1)
  {
    var ts := src.summaries[s].ts;
    SummaryLayerEmits(src, w, s);
    var v := TakeSummary(src, w.(summary := s));
    PassTurnsExact(src, v, ts);
    PassTurnsExact(src, START.(turn := w.turn), ts);
    hide LexLe, PassTurns, SummaryLayer;
  }

  lemma {:induction false} ReachReady(src: Source, s: nat) returns (layers: seq<Layer>)
    requires s <= |src.summaries|
    ensures Ready(src, RunLayers(src, layers), s)
  {
    if s == 0 {
      layers := [];
      StartReady(src);
    } else {
      hide RunLayers, Ready;
      layers := ReachReady(src, s - 1);
      layers := OneMoreReady(src, layers, s - 1);
    }
  }

  lemma OneMoreReady(src: Source, layers: seq<Layer>, s: nat) returns (more: seq<Layer>)
    requires s < |src.summaries| && Ready(src, RunLayers(src, layers), s)
    ensures Ready(src, RunLayers(src, more), s + 1)
  {
    hide RunLayers;
    var w, p := RunLayers(src, layers), FirstOf(src.turns, src.summaries[s].ts);
    if p < w.turn {
      more := layers;
      assert src.turns[p].ts in w.consumed;
    } else if p < |src.turns| {
      more := layers + [Layer(RawTurn, p + 1 - w.turn)];
      RunMore(src, layers, Layer(RawTurn, p + 1 - w.turn));
      ReadyBySkip(src, w, s);
    } else {
      more := layers + [Layer(TurnSummary, 1)];
      RunMore(src, layers, Layer(TurnSummary, 1));
      ReadyByEmitting(src, w, s);
    }
  }

  /** The recipe: ready to emit the summary, one summary, then every turn ahead. */
  lemma ExposedBothWays(src: Source, s: nat, i: nat, j: nat) returns (layers: seq<Layer>)
    requires Exposed(src, s, i, j)
    ensures BothWays(src, layers, RawChunk(src.turns[j]), SummaryChunk(src.summaries[s]))
  {
    var ready := ReachReady(src, s);
    var w := RunLayers(src, ready);
    layers := ready + [Layer(TurnSummary, 1)] + [Layer(RawTurn, 0)];
    RunMore(src, ready, Layer(TurnSummary, 1));
    RunMore(src, ready + [Layer(TurnSummary, 1)], Layer(RawTurn, 0));
    hide LexLe, RunLayers, FormatTurn;
    EmitsThenTakes(src, w, s, i, j);
  }

  lemma EmitsThenTakes(src: Source, w: Walk, s: nat, i: nat, j: nat)
    requires Ready(src, w, s) && Exposed(src, s, i, j)
    ensures var rev := RawLayer(src, SummaryLayer(src, w, 0, 1), 0, 0).rev;
      RawChunk(src.turns[j]) in rev && SummaryChunk(src.summaries[s]) in rev
  {
    hide LexLe, RawLayer, SummaryLayer, PassTurns, FormatTurn, Fewest, FirstOf;
    var ts := src.summaries[s].ts;
    var v := TakeSummary(src, w.(summary := s));
    assert v.rev[|w.rev|] == SummaryChunk(src.summaries[s]);
    SummaryLayerEmits(src, w, s);
    PassTurnsExact(src, v, ts);
    var passed := PassTurns(src, v, ts);
    RawLayerAll(src, passed, 0);
  }

  /** Some recipe emits a time both ways exactly when some summary is exposed: for
      every source, whatever its order and however many its summaries. */
  lemma ClockSetBackExactly(src: Source)
    ensures (exists layers, a, b :: BothWays(src, layers, a, b)) <==> exists s, i, j :: Exposed(src, s, i, j)
  {
    hide BothWays, Exposed;
    if s, i, j :| Exposed(src, s, i, j) {
      var layers := ExposedBothWays(src, s, i, j);
    } else {
      forall layers, a, b ensures !BothWays(src, layers, a, b) {
        OneWayUnexposed(src, layers, a, b);
      }
    }
  }

  lemma {:induction false} LexBehind(front: string, a: string, b: string)
    ensures LexLe(front + a, front + b) <==> LexLe(a, b)
  {
    if front == "" {
      assert front + a == a && front + b == b;
    } else {
      LexBehind(front[1..], a, b);
      assert (front + a)[1..] == front[1..] + a && (front + b)[1..] == front[1..] + b;
    }
  }

  /** Such a night: the turn of 1:50 lies behind that of 1:10, taken twenty minutes
      later, when the clock had gone back. */
  lemma ClockSetBackBreaks(src: Source) returns (layers: seq<Layer>)
    requires src.turns == [Turn("u", "a", "2024-11-03 01:10:00"), Turn("v", "b", "2024-11-03 01:50:00")]
    requires src.summaries == [Record("s", "2024-11-03 01:50:00")]
    ensures Exposed(src, 0, 0, 1)
    ensures BothWays(src, layers, RawChunk(src.turns[1]), SummaryChunk(src.summaries[0]))
  {
    TenBeforeFifty();
    hide LexLe;
    layers := ExposedBothWays(src, 0, 0, 1);
  }

  lemma TenBeforeFifty()
    ensures !LexLe("2024-11-03 01:50:00", "2024-11-03 01:10:00")
  {
    var front := "2024-11-03 01:";
    assert front + "50:00" == "2024-11-03 01:50:00" && front + "10:00" == "2024-11-03 01:10:00";
    LexBehind(front, "50:00", "10:00");
  }
}
