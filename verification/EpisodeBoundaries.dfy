/** Where one conversation episode ends and the next begins, over the reals. */
module EpisodeBoundaries {
  import opened Vectors

  datatype Candidate = Candidate(epoch: int, turn: seq<real>, summary: seq<real>)

  datatype Params = Params(base: real, cap: real, step: real, stepMinutes: real)

  // ----- Boundaries -----

  /** Conversion to int drops the fraction. */
  function Trunc(x: real): int {
    if x >= 0.0 then x.Floor else -((-x).Floor)
  }

  /** Whole steps of pause; with no step length the pause does not count. */
  function PauseSteps(gapSeconds: int, p: Params): int {
    if p.stepMinutes > 0.0 then Trunc(gapSeconds as real / 60.0 / p.stepMinutes) else 0
  }

  function Threshold(gapSeconds: int, p: Params): real {
    Capped(p.base, p.step, PauseSteps(gapSeconds, p) as real, p.cap)
  }

  function Capped(base: real, step: real, steps: real, cap: real): real {
    if base + step * steps <= cap then base + step * steps else cap
  }

  function Similarity(prev: Candidate, curr: Candidate, sqrt: real -> real): real {
    (Cosine(curr.turn, prev.turn, sqrt) + Cosine(curr.summary, prev.summary, sqrt)) / 2.0
  }

  /** A new episode starts at `i`. */
  predicate Cut(cs: seq<Candidate>, i: nat, p: Params, sqrt: real -> real)
    requires i < |cs|
  {
    i == 0 || Similarity(cs[i - 1], cs[i], sqrt) <= Threshold(cs[i].epoch - cs[i - 1].epoch, p)
  }

  ghost predicate Ascending(s: seq<nat>) {
    forall i, j | 0 <= i < j < |s| :: s[i] < s[j]
  }

  lemma AscendingSnoc(s: seq<nat>, x: nat)
    requires Ascending(s) && forall y <- s :: y < x
    ensures Ascending(s + [x]) && forall y <- s + [x] :: y < x + 1
  {
    forall i, j | 0 <= i < j < |s + [x]| ensures (s + [x])[i] < (s + [x])[j] {
      assert s[i] in s;
    }
  }

  /** `bs` lists the cuts of `cs`, in order and with none left out. */
  ghost predicate Boundaries(cs: seq<Candidate>, p: Params, sqrt: real -> real, bs: seq<nat>) {
    && Ascending(bs)
    && (forall b <- bs :: b < |cs|)
    && forall i: nat | i < |cs| :: i in bs <==> Cut(cs, i, p, sqrt)
  }

  method FindEpisodeBoundaries(cs: seq<Candidate>, p: Params, sqrt: real -> real) returns (bs: seq<nat>)
    ensures Boundaries(cs, p, sqrt, bs)
    ensures cs == [] <==> bs == []
    ensures cs != [] ==> bs[0] == 0
  {
    bs := [];
    if cs == [] { return; }
    bs := [0];
    for i := 1 to |cs|
      invariant bs != [] && bs[0] == 0 && Ascending(bs) && forall b <- bs :: b < i
      invariant forall k: nat | k < i :: k in bs <==> Cut(cs, k, p, sqrt)
    {
      var prev, curr := cs[i - 1], cs[i];
      var turnSim := CosineSimilarity(curr.turn, prev.turn, sqrt);
      var summSim := CosineSimilarity(curr.summary, prev.summary, sqrt);
      var avgSim := (turnSim + summSim) / 2.0;
      var gapMinutes := (curr.epoch - prev.epoch) as real / 60.0;
      var threshold := p.base;
      if p.stepMinutes > 0.0 {
        threshold := threshold + p.step * (Trunc(gapMinutes / p.stepMinutes) as real);
      }
      threshold := if threshold <= p.cap then threshold else p.cap;
      assert threshold == Threshold(curr.epoch - prev.epoch, p);
      assert avgSim == Similarity(prev, curr, sqrt);
      if avgSim <= threshold {
        AscendingSnoc(bs, i);
        bs := bs + [i];
      }
    }
  }

  function SegmentEnd(bs: seq<nat>, n: nat, b: nat): nat
    requires b < |bs|
  {
    if b + 1 < |bs| then bs[b + 1] else n
  }

  predicate InSegment(bs: seq<nat>, n: nat, b: nat, i: nat) {
    b < |bs| && bs[b] <= i < SegmentEnd(bs, n, b)
  }

  ghost predicate InSomeSegment(bs: seq<nat>, n: nat, i: nat) {
    exists b: nat :: InSegment(bs, n, b, i)
  }

  /** The boundaries partition the candidates: each is in exactly one segment,
      and no segment is empty. */
  lemma BoundariesPartition(cs: seq<Candidate>, p: Params, sqrt: real -> real, bs: seq<nat>, i: nat)
    requires Boundaries(cs, p, sqrt, bs) && i < |cs|
    ensures InSomeSegment(bs, |cs|, i)
    ensures forall b: nat, c: nat :: InSegment(bs, |cs|, b, i) && InSegment(bs, |cs|, c, i) ==> b == c
    ensures forall b: nat | b < |bs| :: InSegment(bs, |cs|, b, bs[b])
  {
    hide Similarity, Threshold;
    assert Cut(cs, 0, p, sqrt);
    assert 0 in bs;
    var b := LastAtMost(bs, i);
    assert InSegment(bs, |cs|, b, i);
    forall b: nat | b < |bs| ensures InSegment(bs, |cs|, b, bs[b]) {
      assert bs[b] in bs;
    }
    forall b: nat, c: nat | InSegment(bs, |cs|, b, i) && InSegment(bs, |cs|, c, i) ensures b == c {
      if b < c { SegmentsApart(bs, |cs|, b, c); }
      if c < b { SegmentsApart(bs, |cs|, c, b); }
    }
  }

  lemma SegmentsApart(bs: seq<nat>, n: nat, b: nat, c: nat)
    requires Ascending(bs) && b < c < |bs|
    ensures SegmentEnd(bs, n, b) <= bs[c]
  {
  }

  /** The last entry not above `i`. */
  lemma LastAtMost(bs: seq<nat>, i: nat) returns (b: nat)
    requires Ascending(bs) && exists k: nat | k < |bs| :: bs[k] <= i
    ensures b < |bs| && bs[b] <= i && (b + 1 < |bs| ==> bs[b + 1] > i)
  {
    b := |bs| - 1;
    while bs[b] > i
      invariant 0 <= b < |bs| && (b + 1 < |bs| ==> bs[b + 1] > i)
    {
      b := b - 1;
    }
  }

  lemma TruncMonotone(x: real, y: real)
    requires x <= y
    ensures Trunc(x) <= Trunc(y)
  {
    if x < 0.0 && y < 0.0 {
      assert (-y).Floor <= (-x).Floor;
    }
  }

  lemma PauseStepsMonotone(g: int, h: int, p: Params)
    requires g <= h
    ensures PauseSteps(g, p) <= PauseSteps(h, p)
  {
    hide Trunc;
    if p.stepMinutes > 0.0 {
      var gm, hm := g as real / 60.0, h as real / 60.0;
      QuotientMonotone(gm, hm, p.stepMinutes);
      TruncMonotone(gm / p.stepMinutes, hm / p.stepMinutes);
    }
  }

  lemma ThresholdMonotone(g: int, h: int, p: Params)
    requires g <= h && p.step >= 0.0
    ensures Threshold(g, p) <= Threshold(h, p)
  {
    hide PauseSteps, Capped;
    PauseStepsMonotone(g, h, p);
    CappedMonotone(p.base, p.step, PauseSteps(g, p) as real, PauseSteps(h, p) as real, p.cap);
  }

  lemma CappedMonotone(base: real, step: real, x: real, y: real, cap: real)
    requires x <= y && step >= 0.0
    ensures Capped(base, step, x, cap) <= Capped(base, step, y, cap)
  {
    MonotoneProduct(x, y, step);
    var u, v := step * x, step * y;
    assert u == x * step && v == y * step;
  }

  lemma QuotientMonotone(x: real, y: real, d: real)
    requires x <= y && d > 0.0
    ensures x / d <= y / d
  {
  }

  /** Longer pauses between the same turns only add boundaries. */
  lemma WideningAddsBoundaries(cs: seq<Candidate>, ds: seq<Candidate>, p: Params, sqrt: real -> real,
                               bs: seq<nat>, es: seq<nat>)
    requires p.step >= 0.0 && |cs| == |ds|
    requires forall i | 0 <= i < |cs| :: cs[i].turn == ds[i].turn && cs[i].summary == ds[i].summary
    requires forall i | 1 <= i < |cs| :: cs[i].epoch - cs[i - 1].epoch <= ds[i].epoch - ds[i - 1].epoch
    requires Boundaries(cs, p, sqrt, bs) && Boundaries(ds, p, sqrt, es)
    ensures forall b <- bs :: b in es
  {
    forall b <- bs ensures b in es {
      assert Cut(cs, b, p, sqrt);
      if b > 0 { ThresholdMonotone(cs[b].epoch - cs[b - 1].epoch, ds[b].epoch - ds[b - 1].epoch, p); }
      assert Cut(ds, b, p, sqrt);
    }
  }

  // ----- The threshold in numbers -----

  lemma FloorIs(x: real, n: nat)
    requires n as real <= x < n as real + 1.0
    ensures x.Floor == n
  {
  }

  lemma QuotientBetween(x: real, d: real, n: nat)
    requires d > 0.0 && n as real * d <= x < (n as real + 1.0) * d
    ensures n as real <= x / d < n as real + 1.0
  {
    var q, m := x / d, n as real;
    assert q * d == x;
    if q < m { MonotoneStrict(q, m, d); }
    if q >= m + 1.0 { MonotoneProduct(m + 1.0, q, d); }
  }

  lemma MonotoneStrict(p: real, q: real, r: real)
    requires p < q && r > 0.0
    ensures p * r < q * r
  {
    PositiveProduct(q - p, r);
  }

  /** A pause of n whole steps raises the base by n steps, up to the cap. */
  lemma ThresholdExact(gap: int, p: Params, n: nat)
    requires p.stepMinutes > 0.0
    requires n as real * p.stepMinutes <= gap as real / 60.0 < (n as real + 1.0) * p.stepMinutes
    ensures var raised := p.base + p.step * n as real;
      Threshold(gap, p) == if raised <= p.cap then raised else p.cap
  {
    var minutes := gap as real / 60.0;
    QuotientBetween(minutes, p.stepMinutes, n);
    FloorIs(minutes / p.stepMinutes, n);
  }

  /** A pause below one step, forwards or backwards, leaves the base, as no step length
      does; and the threshold never passes the cap. */
  lemma ThresholdAtRest(gap: int, p: Params)
    ensures Threshold(gap, p) <= p.cap
    ensures p.stepMinutes <= 0.0 || -p.stepMinutes < gap as real / 60.0 < p.stepMinutes ==>
      Threshold(gap, p) == if p.base <= p.cap then p.base else p.cap
  {
    if p.stepMinutes > 0.0 && -p.stepMinutes < gap as real / 60.0 < p.stepMinutes {
      var x := gap as real / 60.0;
      if x >= 0.0 {
        QuotientBetween(x, p.stepMinutes, 0);
        FloorIs(x / p.stepMinutes, 0);
      } else {
        QuotientBetween(-x, p.stepMinutes, 0);
        FloorIs(-x / p.stepMinutes, 0);
        NegativeQuotient(x, p.stepMinutes);
      }
    }
  }

  lemma NegativeQuotient(x: real, d: real)
    requires d > 0.0 && x < 0.0
    ensures -(x / d) == -x / d && x / d < 0.0
  {
    var q := x / d;
    assert q * d == x;
    if q >= 0.0 { ProductNonNegative(q, d); }
  }

  /** Where an episode starts, in numbers: at the first candidate, and where the mean
      of the two similarities to the one before does not pass the threshold of the
      pause. A mean above the cap never starts one. */
  lemma CutExact(cs: seq<Candidate>, p: Params, sqrt: real -> real, bs: seq<nat>, i: nat)
    requires Boundaries(cs, p, sqrt, bs) && i < |cs|
    ensures i == 0 ==> i in bs
    ensures i > 0 ==>
      var a, b := cs[i - 1], cs[i];
      var mean := (Cosine(b.turn, a.turn, sqrt) + Cosine(b.summary, a.summary, sqrt)) / 2.0;
      (i in bs <==> mean <= Threshold(b.epoch - a.epoch, p)) && (mean > p.cap ==> i !in bs)
  {
    hide Threshold, Cosine;
    assert i in bs <==> Cut(cs, i, p, sqrt);
    if i > 0 { ThresholdAtRest(cs[i].epoch - cs[i - 1].epoch, p); }
  }
}
