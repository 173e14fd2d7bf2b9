/** Closing the open episode of a session: candidates, one summary per segment,
    then one atomic commit per segment that must survive partial failure. */
module EpisodeClose {
  import opened Wrappers
  import opened EpisodeBoundaries

  /** One turn of the session with its turn summary. Empty text is a turn not yet
      summarized, or a marker. */
  datatype Row = Row(epoch: int, text: string, turn: Option<seq<real>>, summary: Option<seq<real>>,
                     episode: Option<nat>)

  datatype Episode = Episode(text: string, start: int, end: int, members: seq<nat>)

  datatype Session = Session(rows: seq<Row>, episodes: seq<Episode>)

  /** The end of the episode with the latest start; 0 when there is none. */
  function LastEnd(s: Session): int {
    if s.episodes == [] then 0 else s.episodes[|s.episodes| - 1].end
  }

  predicate Pending(r: Row, since: int) {
    r.text != "" && r.episode.None? && r.epoch > since && r.summary.Some? && r.turn.Some?
  }

  /** The positions of the pending rows, oldest first. */
  function Candidates(rows: seq<Row>, since: int): (cs: seq<nat>)
    ensures Ascending(cs)
    ensures forall i: nat :: i in cs <==> i < |rows| && Pending(rows[i], since)
  {
    if rows == [] then []
    else
      var front := Candidates(rows[..|rows| - 1], since);
      assert forall i: nat | i < |rows| - 1 :: rows[..|rows| - 1][i] == rows[i];
      if Pending(rows[|rows| - 1], since) then
        AscendingSnoc(front, |rows| - 1);
        front + [|rows| - 1]
      else front
  }

  function Assign(rows: seq<Row>, members: seq<nat>, episode: nat): (r: seq<Row>)
    ensures |r| == |rows|
    ensures forall i: nat | i < |rows| :: r[i] == if i in members then rows[i].(episode := Some(episode)) else rows[i]
  {
    seq(|rows|, i requires 0 <= i < |rows| => if i in members then rows[i].(episode := Some(episode)) else rows[i])
  }

  predicate Collides(s: Session, start: int) {
    exists e <- s.episodes :: e.start == start
  }

  /** The backend's close: one episode and its membership in one transaction; a
      start already taken changes nothing. */
  function StoreEpisodeClose(s: Session, text: string, members: seq<nat>, start: int, end: int): Session {
    if Collides(s, start) then s
    else Session(Assign(s.rows, members, |s.episodes|), s.episodes + [Episode(text, start, end, members)])
  }

  /** The boundaries of `n` candidates. */
  ghost predicate Cuts(bs: seq<nat>, n: nat) {
    Ascending(bs) && (n > 0 <==> bs != []) && (bs != [] ==> bs[0] == 0) && forall b <- bs :: b < n
  }

  /** Where segment `k` starts; past the last one, the number of candidates. */
  function StartOf(bs: seq<nat>, n: nat, k: nat): (r: nat)
    ensures (forall b <- bs :: b < n) ==> r <= n
  {
    if k < |bs| then assert bs[k] in bs; bs[k] else n
  }

  lemma CutsBound(bs: seq<nat>, n: nat, k: nat)
    requires Cuts(bs, n) && k < |bs|
    ensures bs[k] < StartOf(bs, n, k + 1) <= n
  {
    assert bs[k] in bs;
    if k + 1 < |bs| { assert bs[k + 1] in bs; }
  }

  /** Segment `k` of the candidates of `s`, committed on top of `t`. */
  function StoreSegment(s: Session, t: Session, cs: seq<nat>, bs: seq<nat>, k: nat, text: string): Session
    requires Cuts(bs, |cs|) && k < |bs| && forall c <- cs :: c < |s.rows|
  {
    CutsBound(bs, |cs|, k);
    var a, e := bs[k], StartOf(bs, |cs|, k + 1);
    assert cs[a] in cs && cs[e - 1] in cs;
    StoreEpisodeClose(t, text, cs[a..e], s.rows[cs[a]].epoch, s.rows[cs[e - 1]].epoch)
  }

  /** The session after the first `k` segments are committed. */
  ghost function Committed(s: Session, cs: seq<nat>, bs: seq<nat>, infer: nat -> string, k: nat): Session
    requires Cuts(bs, |cs|) && k <= |bs| && forall c <- cs :: c < |s.rows|
  {
    if k == 0 then s else StoreSegment(s, Committed(s, cs, bs, infer, k - 1), cs, bs, k - 1, infer(k - 1))
  }

  // ----- The invariant -----

  ghost predicate StrictEpochs(rows: seq<Row>) {
    forall i, j | 0 <= i < j < |rows| :: rows[i].epoch < rows[j].epoch
  }

  /** Spans are disjoint and in order. */
  ghost predicate Ordered(eps: seq<Episode>) {
    && (forall e | 0 <= e < |eps| :: eps[e].start <= eps[e].end)
    && forall e, f | 0 <= e < f < |eps| :: eps[e].end < eps[f].start
  }

  /** A row points at the one episode that lists it, and lies in its span. */
  ghost predicate Membership(s: Session) {
    && (forall i | 0 <= i < |s.rows| && s.rows[i].episode.Some? ::
          var e := s.rows[i].episode.value;
          e < |s.episodes| && i in s.episodes[e].members && s.episodes[e].start <= s.rows[i].epoch <= s.episodes[e].end)
    && forall e: nat, m: nat | Lists(s.episodes, e, m) :: m < |s.rows| && s.rows[m].episode == Some(e)
  }

  ghost predicate Lists(eps: seq<Episode>, e: nat, m: nat) {
    e < |eps| && m in eps[e].members
  }

  ghost predicate Wf(s: Session) {
    StrictEpochs(s.rows) && Ordered(s.episodes) && Membership(s)
  }

  /** After `k` commits: the rows differ only in the membership of the first
      `done` candidates, and the last span ends at the last of them. */
  ghost predicate Progress(s: Session, t: Session, cs: seq<nat>, done: nat, k: nat) {
    && done <= |cs| && |t.rows| == |s.rows| && |t.episodes| == |s.episodes| + k
    && s.episodes <= t.episodes
    && (forall i: nat | i < |s.rows| ::
          t.rows[i] == s.rows[i].(episode := t.rows[i].episode) &&
          if i in cs[..done] then t.rows[i].episode.Some? else t.rows[i].episode == s.rows[i].episode)
    && (if k == 0 then done == 0 else done > 0 && cs[done - 1] < |s.rows| && LastEnd(t) == s.rows[cs[done - 1]].epoch)
  }

  lemma AscendingIndex(cs: seq<nat>, i: nat, j: nat)
    requires Ascending(cs) && i < |cs| && j < |cs|
    ensures cs[i] < cs[j] <==> i < j
  {
    if j < i { assert cs[j] < cs[i]; }
  }

  /** The next segment starts after every span stored so far. */
  lemma NoCollision(s: Session, t: Session, cs: seq<nat>, done: nat, k: nat)
    requires StrictEpochs(s.rows) && Ordered(t.episodes) && Progress(s, t, cs, done, k) && done < |cs|
    requires cs == Candidates(s.rows, LastEnd(s))
    ensures cs[done] in cs && s.rows[cs[done]].epoch > LastEnd(t) && !Collides(t, s.rows[cs[done]].epoch)
  {
    assert cs[done] in cs;
    if k > 0 { AscendingIndex(cs, done - 1, done); }
    EndsBefore(t);
  }

  lemma EndsBefore(t: Session)
    requires Ordered(t.episodes)
    ensures forall e <- t.episodes :: e.start <= LastEnd(t)
  {
  }

  lemma OrderedSnoc(eps: seq<Episode>, e: Episode, s: Session)
    requires Ordered(eps) && s.episodes == eps && e.start <= e.end && LastEnd(s) < e.start
    ensures Ordered(eps + [e])
  {
    forall i, j | 0 <= i < j < |eps + [e]| ensures (eps + [e])[i].end < (eps + [e])[j].start {
      if j == |eps| {
        assert eps[i].end <= LastEnd(s);
      }
    }
  }

  /** Storing an episode over unassigned rows within its span. */
  lemma MembershipSnoc(t: Session, ep: Episode)
    requires Membership(t)
    requires forall m <- ep.members ::
      m < |t.rows| && t.rows[m].episode.None? && ep.start <= t.rows[m].epoch <= ep.end
    ensures Membership(Session(Assign(t.rows, ep.members, |t.episodes|), t.episodes + [ep]))
  {
    var u := Session(Assign(t.rows, ep.members, |t.episodes|), t.episodes + [ep]);
    forall e: nat, m: nat | Lists(u.episodes, e, m) ensures m < |u.rows| && u.rows[m].episode == Some(e) {
      if e < |t.episodes| { assert Lists(t.episodes, e, m); }
    }
    assert Membership(u);
  }

  /** A stretch of candidates: unassigned, and within the span of its ends. */
  lemma StretchOk(s: Session, t: Session, cs: seq<nat>, done: nat, end: nat, k: nat)
    requires StrictEpochs(s.rows) && cs == Candidates(s.rows, LastEnd(s)) && Progress(s, t, cs, done, k)
    requires done < end <= |cs|
    ensures cs[done] in cs && cs[end - 1] in cs && s.rows[cs[done]].epoch <= s.rows[cs[end - 1]].epoch
    ensures forall m <- cs[done..end] ::
      m < |t.rows| && t.rows[m].episode.None? && s.rows[cs[done]].epoch <= t.rows[m].epoch <= s.rows[cs[end - 1]].epoch
  {
    hide Candidates, LastEnd;
    assert cs[done] in cs && cs[end - 1] in cs;
    AscendingIndex(cs, done, end - 1);
    forall m | m in cs[done..end]
      ensures m < |t.rows| && t.rows[m].episode.None?
      ensures s.rows[cs[done]].epoch <= t.rows[m].epoch <= s.rows[cs[end - 1]].epoch
    {
      var j :| done <= j < end && cs[j] == m;
      AscendingIndex(cs, done, j);
      AscendingIndex(cs, j, end - 1);
      assert m in cs;
    }
  }

  lemma ProgressSnoc(s: Session, t: Session, cs: seq<nat>, done: nat, end: nat, k: nat, ep: Episode)
    requires Progress(s, t, cs, done, k) && done < end <= |cs| && ep.members == cs[done..end]
    requires cs[end - 1] < |s.rows| && ep.end == s.rows[cs[end - 1]].epoch
    ensures Progress(s, Session(Assign(t.rows, ep.members, |t.episodes|), t.episodes + [ep]), cs, end, k + 1)
  {
    hide LastEnd, Candidates, Assign;
    var u := Session(Assign(t.rows, ep.members, |t.episodes|), t.episodes + [ep]);
    assert cs[..end] == cs[..done] + ep.members;
    assert s.episodes <= u.episodes;
    assert LastEnd(u) == ep.end by { LastOfSnoc(t, ep, u.rows); }
    forall i: nat | i < |s.rows|
      ensures u.rows[i] == s.rows[i].(episode := u.rows[i].episode) &&
        if i in cs[..end] then u.rows[i].episode.Some? else u.rows[i].episode == s.rows[i].episode
    {
      assert t.rows[i] == s.rows[i].(episode := t.rows[i].episode);
      assert i in cs[..end] <==> i in cs[..done] || i in ep.members;
    }
  }

  lemma LastOfSnoc(t: Session, ep: Episode, rows: seq<Row>)
    ensures LastEnd(Session(rows, t.episodes + [ep])) == ep.end
  {
  }

  lemma StrictAssign(rows: seq<Row>, members: seq<nat>, e: nat)
    requires StrictEpochs(rows)
    ensures StrictEpochs(Assign(rows, members, e))
  {
  }

  /** One more segment keeps the invariant. */
  lemma SegmentInv(s: Session, t: Session, cs: seq<nat>, bs: seq<nat>, k: nat, text: string)
    requires Wf(s) && Wf(t) && cs == Candidates(s.rows, LastEnd(s)) && Cuts(bs, |cs|) && k < |bs|
    requires Progress(s, t, cs, bs[k], k)
    ensures var u := StoreSegment(s, t, cs, bs, k, text); Wf(u) && Progress(s, u, cs, StartOf(bs, |cs|, k + 1), k + 1)
  {
    hide Candidates, LastEnd, Progress, StrictEpochs, Ordered, Membership;
    CutsBound(bs, |cs|, k);
    var done, end := bs[k], StartOf(bs, |cs|, k + 1);
    NoCollision(s, t, cs, done, k);
    StretchOk(s, t, cs, done, end, k);
    var ep := Episode(text, s.rows[cs[done]].epoch, s.rows[cs[end - 1]].epoch, cs[done..end]);
    OrderedSnoc(t.episodes, ep, t);
    MembershipSnoc(t, ep);
    StrictAssign(t.rows, ep.members, |t.episodes|);
    ProgressSnoc(s, t, cs, done, end, k, ep);
  }

  lemma CommitStart(s: Session, cs: seq<nat>)
    ensures Progress(s, s, cs, 0, 0)
  {
  }

  lemma {:induction false} CommitInv(s: Session, cs: seq<nat>, bs: seq<nat>, infer: nat -> string, k: nat)
    requires Wf(s) && cs == Candidates(s.rows, LastEnd(s)) && Cuts(bs, |cs|) && k <= |bs|
    ensures var t := Committed(s, cs, bs, infer, k); Wf(t) && Progress(s, t, cs, StartOf(bs, |cs|, k), k)
  {
    hide Wf, Progress, LastEnd, StoreSegment, Pending;
    if k > 0 {
      CommitInv(s, cs, bs, infer, k - 1);
      SegmentInv(s, Committed(s, cs, bs, infer, k - 1), cs, bs, k - 1, infer(k - 1));
    } else {
      CommitStart(s, cs);
      assert bs != [] ==> bs[0] == 0;
    }
  }

  // ----- What the new episodes hold -----

  /** Segment b is the b-th new episode: its own summary, its own turns, and the
      times of its first and last. */
  ghost predicate FiledAt(s: Session, t: Session, cs: seq<nat>, bs: seq<nat>, infer: nat -> string, b: nat) {
    b < |bs| && |s.episodes| + b < |t.episodes| &&
    var first, behind := bs[b], if b + 1 < |bs| then bs[b + 1] else |cs|;
    var e := t.episodes[|s.episodes| + b];
    && e.text == infer(b)
    && first < behind <= |cs| && e.members == cs[first..behind]
    && cs[first] < |s.rows| && e.start == s.rows[cs[first]].epoch
    && cs[behind - 1] < |s.rows| && e.end == s.rows[cs[behind - 1]].epoch
  }

  ghost predicate Filed(s: Session, t: Session, cs: seq<nat>, bs: seq<nat>, infer: nat -> string, k: nat) {
    && s.episodes <= t.episodes && |t.episodes| == |s.episodes| + k
    && forall b: nat | b < k :: FiledAt(s, t, cs, bs, infer, b)
  }

  lemma FiledGrows(s: Session, t: Session, u: Session, cs: seq<nat>, bs: seq<nat>, infer: nat -> string, b: nat)
    requires FiledAt(s, t, cs, bs, infer, b) && t.episodes <= u.episodes
    ensures FiledAt(s, u, cs, bs, infer, b)
  {
    assert u.episodes[|s.episodes| + b] == t.episodes[|s.episodes| + b];
  }

  lemma FiledNext(s: Session, t: Session, cs: seq<nat>, bs: seq<nat>, infer: nat -> string, k: nat)
    requires Wf(s) && Wf(t) && cs == Candidates(s.rows, LastEnd(s)) && Cuts(bs, |cs|) && k < |bs|
    requires Progress(s, t, cs, bs[k], k)
    ensures var u := StoreSegment(s, t, cs, bs, k, infer(k));
      t.episodes <= u.episodes && |u.episodes| == |t.episodes| + 1 && FiledAt(s, u, cs, bs, infer, k)
  {
    hide Candidates, LastEnd, StrictEpochs, Ordered, Membership;
    CutsBound(bs, |cs|, k);
    NoCollision(s, t, cs, bs[k], k);
    assert cs[StartOf(bs, |cs|, k + 1) - 1] in cs;
  }

  /** However many segments a close got through, the episodes it added are those
      segments, each with its own summary, turns and span. */
  lemma {:induction false} CommittedFiles(s: Session, cs: seq<nat>, bs: seq<nat>, infer: nat -> string, k: nat)
    requires Wf(s) && cs == Candidates(s.rows, LastEnd(s)) && Cuts(bs, |cs|) && k <= |bs|
    ensures Filed(s, Committed(s, cs, bs, infer, k), cs, bs, infer, k)
  {
    hide Wf, Progress, LastEnd, StoreSegment, Candidates, FiledAt;
    if k > 0 {
      CommitInv(s, cs, bs, infer, k - 1);
      CommittedFiles(s, cs, bs, infer, k - 1);
      var t, u := Committed(s, cs, bs, infer, k - 1), Committed(s, cs, bs, infer, k);
      FiledNext(s, t, cs, bs, infer, k - 1);
      forall b: nat | b < k ensures FiledAt(s, u, cs, bs, infer, b) {
        if b < k - 1 { FiledGrows(s, t, u, cs, bs, infer, b); }
      }
    }
  }

  // ----- What a close promises -----

  lemma {:induction false} SameAscending(a: seq<nat>, b: seq<nat>)
    requires Ascending(a) && Ascending(b) && forall x: nat :: x in a <==> x in b
    ensures a == b
  {
    FirstIsIn(a);
    FirstIsIn(b);
    if a != [] {
      assert a[|a| - 1] in a;
      assert b[|b| - 1] in b;
      var m := |a| - 1;
      var n := |b| - 1;
      LastIsMax(a);
      LastIsMax(b);
      assert a[m] in b && b[n] in a;
      DropLast(a);
      DropLast(b);
      assert a[m] == b[n];
      forall x: nat ensures x in a[..m] <==> x in b[..n] {
        assert x in a[..m] <==> x in a && x != a[m];
        assert x in b[..n] <==> x in b && x != b[n];
      }
      SameAscending(a[..m], b[..n]);
      assert a == a[..m] + [a[m]] && b == b[..n] + [b[n]];
    }
  }

  lemma FirstIsIn(a: seq<nat>)
    ensures a != [] ==> a[0] in a
  {
  }

  lemma LastIsMax(a: seq<nat>)
    requires Ascending(a) && a != []
    ensures forall x <- a :: x <= a[|a| - 1]
  {
  }

  lemma DropLast(a: seq<nat>)
    requires Ascending(a) && a != []
    ensures Ascending(a[..|a| - 1]) && forall x: nat :: x in a[..|a| - 1] <==> x in a && x != a[|a| - 1]
  {
    assert a == a[..|a| - 1] + [a[|a| - 1]];
  }

  /** However many segments a close got through, the next attempt finds exactly
      the candidates left: nothing is stored twice and nothing is lost. */
  lemma RetryFindsTheRest(s: Session, cs: seq<nat>, bs: seq<nat>, infer: nat -> string, k: nat)
    requires Wf(s) && cs == Candidates(s.rows, LastEnd(s)) && Cuts(bs, |cs|) && k <= |bs|
    ensures var t := Committed(s, cs, bs, infer, k); Candidates(t.rows, LastEnd(t)) == cs[StartOf(bs, |cs|, k)..]
  {
    hide LastEnd, Committed, Ordered, Membership;
    CommitInv(s, cs, bs, infer, k);
    var t, done := Committed(s, cs, bs, infer, k), StartOf(bs, |cs|, k);
    var rest := Candidates(t.rows, LastEnd(t));
    if k == 0 {
      assert t == s by { CommittedNone(s, cs, bs, infer); }
      assert cs[0..] == cs;
    } else {
      forall i: nat ensures i in rest <==> i in cs[done..] {
        RestExact(s, t, cs, done, k, i);
      }
      SameAscending(rest, cs[done..]);
    }
  }

  lemma CommittedNone(s: Session, cs: seq<nat>, bs: seq<nat>, infer: nat -> string)
    requires Cuts(bs, |cs|) && forall c <- cs :: c < |s.rows|
    ensures Committed(s, cs, bs, infer, 0) == s
  {
  }

  lemma RestExact(s: Session, t: Session, cs: seq<nat>, done: nat, k: nat, i: nat)
    requires StrictEpochs(s.rows) && cs == Candidates(s.rows, LastEnd(s)) && Progress(s, t, cs, done, k) && k > 0
    requires LastEnd(t) >= LastEnd(s)
    ensures i in Candidates(t.rows, LastEnd(t)) <==> i in cs[done..]
  {
    hide LastEnd, Candidates;
    var last := cs[done - 1];
    if i in cs[done..] {
      var j :| done <= j < |cs| && cs[j] == i;
      AscendingIndex(cs, done - 1, j);
      assert Pending(t.rows[i], LastEnd(t));
    }
  }

  /** A close that commits every segment puts every candidate in an episode and
      leaves none to close. */
  lemma CompletedCloseCovers(s: Session, cs: seq<nat>, bs: seq<nat>, infer: nat -> string)
    requires Wf(s) && cs == Candidates(s.rows, LastEnd(s)) && Cuts(bs, |cs|)
    ensures var t := Committed(s, cs, bs, infer, |bs|);
      && Wf(t) && |t.episodes| == |s.episodes| + |bs|
      && (forall c <- cs :: c < |t.rows| && t.rows[c].episode.Some?)
      && Candidates(t.rows, LastEnd(t)) == []
  {
    CommitInv(s, cs, bs, infer, |bs|);
    RetryFindsTheRest(s, cs, bs, infer, |bs|);
    hide Wf, Candidates, LastEnd, Committed;
    assert cs[..|cs|] == cs;
    assert bs == [] ==> cs == [];
  }

  // ----- Turns of the same second -----

  ghost predicate SortedEpochs(rows: seq<Row>) {
    forall i, j | 0 <= i < j < |rows| :: rows[i].epoch <= rows[j].epoch
  }

  /** No two segments begin in the same second. */
  ghost predicate DistinctStarts(rows: seq<Row>, cs: seq<nat>, bs: seq<nat>)
    requires Cuts(bs, |cs|) && forall c <- cs :: c < |rows|
  {
    forall k | 0 <= k < |bs| - 1 :: SegStart(rows, cs, bs, k) < SegStart(rows, cs, bs, k + 1)
  }

  function SegStart(rows: seq<Row>, cs: seq<nat>, bs: seq<nat>, k: nat): int
    requires Cuts(bs, |cs|) && k < |bs| && forall c <- cs :: c < |rows|
  {
    assert bs[k] in bs;
    assert cs[bs[k]] in cs;
    rows[cs[bs[k]]].epoch
  }

  /** What a close does to the rows, collisions included: candidates ahead are
      untouched and every start up to here is taken. */
  ghost predicate Loose(s: Session, t: Session, cs: seq<nat>, bs: seq<nat>, k: nat)
    requires Cuts(bs, |cs|) && k <= |bs| && forall c <- cs :: c < |s.rows|
  {
    && |t.rows| == |s.rows|
    && (forall j: nat | StartOf(bs, |cs|, k) <= j < |cs| :: cs[j] < |t.rows| && t.rows[cs[j]].episode.None?)
    && (forall h: nat | h < k :: Collides(t, SegStart(s.rows, cs, bs, h)))
    && (forall e <- t.episodes :: e in s.episodes || exists h: nat :: h < k && e.start == SegStart(s.rows, cs, bs, h))
  }

  /** A store touches the rows of its own segment only, and assigns those. */
  lemma StoreRows(s: Session, t: Session, cs: seq<nat>, bs: seq<nat>, k: nat, text: string)
    requires Ascending(cs) && Cuts(bs, |cs|) && k < |bs| && (forall c <- cs :: c < |s.rows|) && |t.rows| == |s.rows|
    requires !Collides(t, SegStart(s.rows, cs, bs, k))
    ensures var u := StoreSegment(s, t, cs, bs, k, text);
      && |u.rows| == |s.rows|
      && forall j: nat | j < |cs| :: cs[j] < |s.rows| &&
           if bs[k] <= j < StartOf(bs, |cs|, k + 1) then u.rows[cs[j]].episode.Some? else u.rows[cs[j]] == t.rows[cs[j]]
  {
    CutsBound(bs, |cs|, k);
    var a, e := bs[k], StartOf(bs, |cs|, k + 1);
    forall j: nat | j < |cs| ensures cs[j] < |s.rows| && (cs[j] in cs[a..e] <==> a <= j < e) {
      assert cs[j] in cs;
      if a <= j < e { assert cs[a..e][j - a] == cs[j]; }
      if i :| a <= i < e && cs[i] == cs[j] { AscendingIndex(cs, i, j); AscendingIndex(cs, j, i); }
    }
  }

  lemma CollidesGrows(t: Session, u: Session, start: int)
    requires Collides(t, start) && t.episodes <= u.episodes
    ensures Collides(u, start)
  {
    var x :| x in t.episodes && x.start == start;
    assert x in u.episodes;
  }

  lemma StoreLoose(s: Session, t: Session, cs: seq<nat>, bs: seq<nat>, k: nat, text: string)
    requires Ascending(cs) && Cuts(bs, |cs|) && k < |bs| && (forall c <- cs :: c < |s.rows|) && Loose(s, t, cs, bs, k)
    ensures Loose(s, StoreSegment(s, t, cs, bs, k, text), cs, bs, k + 1)
  {
    CutsBound(bs, |cs|, k);
    var u := StoreSegment(s, t, cs, bs, k, text);
    if !Collides(t, SegStart(s.rows, cs, bs, k)) {
      StoreRows(s, t, cs, bs, k, text);
      var ep := u.episodes[|t.episodes|];
      assert u.episodes == t.episodes + [ep] && ep in u.episodes && ep.start == SegStart(s.rows, cs, bs, k);
      forall h: nat | h < k ensures Collides(u, SegStart(s.rows, cs, bs, h)) {
        assert Collides(t, SegStart(s.rows, cs, bs, h));
        CollidesGrows(t, u, SegStart(s.rows, cs, bs, h));
      }
    }
  }

  lemma {:induction false} CommittedLoose(s: Session, cs: seq<nat>, bs: seq<nat>, infer: nat -> string, k: nat)
    requires Ascending(cs) && Cuts(bs, |cs|) && k <= |bs| && forall c <- cs :: c < |s.rows| && s.rows[c].episode.None?
    ensures Loose(s, Committed(s, cs, bs, infer, k), cs, bs, k)
  {
    hide StoreSegment, Loose;
    if k > 0 {
      CommittedLoose(s, cs, bs, infer, k - 1);
      StoreLoose(s, Committed(s, cs, bs, infer, k - 1), cs, bs, k - 1, infer(k - 1));
    } else {
      LooseStart(s, cs, bs);
    }
  }

  lemma LooseStart(s: Session, cs: seq<nat>, bs: seq<nat>)
    requires Cuts(bs, |cs|) && forall c <- cs :: c < |s.rows| && s.rows[c].episode.None?
    ensures Loose(s, s, cs, bs, 0)
  {
    hide Collides, SegStart, StartOf;
    forall j: nat | j < |cs| ensures cs[j] < |s.rows| && s.rows[cs[j]].episode.None? {
      assert cs[j] in cs;
    }
  }

  /** A segment that collides stays out of every episode. */
  lemma {:induction false} SkippedStaysOut(s: Session, cs: seq<nat>, bs: seq<nat>, infer: nat -> string, h: nat, k: nat)
    requires Ascending(cs) && Cuts(bs, |cs|) && h < k <= |bs|
    requires forall c <- cs :: c < |s.rows| && s.rows[c].episode.None?
    requires h > 0 && SegStart(s.rows, cs, bs, h - 1) == SegStart(s.rows, cs, bs, h)
    ensures var t := Committed(s, cs, bs, infer, k);
      bs[h] < |cs| && cs[bs[h]] < |t.rows| && |t.rows| == |s.rows| && t.rows[cs[bs[h]]].episode.None?
    decreases k
  {
    hide StoreSegment;
    CutsBound(bs, |cs|, h);
    CommittedLoose(s, cs, bs, infer, k - 1);
    var t := Committed(s, cs, bs, infer, k - 1);
    assert cs[bs[h]] in cs;
    if k > h + 1 {
      SkippedStaysOut(s, cs, bs, infer, h, k - 1);
      assert bs[h] < bs[k - 1];
      hide Loose, Collides, SegStart;
      if Collides(t, SegStart(s.rows, cs, bs, k - 1)) {
        CollisionChangesNothing(s, t, cs, bs, k - 1, infer(k - 1));
      } else {
        StoreRows(s, t, cs, bs, k - 1, infer(k - 1));
      }
    } else {
      CollisionChangesNothing(s, t, cs, bs, h, infer(h));
    }
  }

  lemma CollisionChangesNothing(s: Session, t: Session, cs: seq<nat>, bs: seq<nat>, k: nat, text: string)
    requires Cuts(bs, |cs|) && k < |bs| && (forall c <- cs :: c < |s.rows|) && Collides(t, SegStart(s.rows, cs, bs, k))
    ensures StoreSegment(s, t, cs, bs, k, text) == t
  {
    CutsBound(bs, |cs|, k);
  }

  lemma {:induction false} StartsIncrease(rows: seq<Row>, cs: seq<nat>, bs: seq<nat>, h: nat, k: nat)
    requires Cuts(bs, |cs|) && (forall c <- cs :: c < |rows|) && DistinctStarts(rows, cs, bs) && h < k < |bs|
    ensures SegStart(rows, cs, bs, h) < SegStart(rows, cs, bs, k)
  {
    if h < k - 1 { StartsIncrease(rows, cs, bs, h, k - 1); }
  }

  lemma {:induction false} DistinctCommitsAll(s: Session, cs: seq<nat>, bs: seq<nat>, infer: nat -> string, k: nat)
    requires Ordered(s.episodes) && cs == Candidates(s.rows, LastEnd(s)) && Cuts(bs, |cs|) && k <= |bs|
    requires DistinctStarts(s.rows, cs, bs)
    ensures var t := Committed(s, cs, bs, infer, k);
      |t.rows| == |s.rows| &&
      forall j: nat | j < StartOf(bs, |cs|, k) :: cs[j] < |t.rows| && t.rows[cs[j]].episode.Some?
  {
    hide Candidates, LastEnd, Loose, StoreSegment;
    if k > 0 {
      CommittedLoose(s, cs, bs, infer, k - 1);
      DistinctCommitsAll(s, cs, bs, infer, k - 1);
      var t := Committed(s, cs, bs, infer, k - 1);
      FreshStart(s, t, cs, bs, k - 1);
      hide DistinctStarts, Collides;
      LooseSize(s, t, cs, bs, k - 1);
      StoreRows(s, t, cs, bs, k - 1, infer(k - 1));
    }
  }

  lemma LooseSize(s: Session, t: Session, cs: seq<nat>, bs: seq<nat>, k: nat)
    requires Cuts(bs, |cs|) && k <= |bs| && (forall c <- cs :: c < |s.rows|) && Loose(s, t, cs, bs, k)
    ensures |t.rows| == |s.rows|
  {
  }

  lemma FreshStart(s: Session, t: Session, cs: seq<nat>, bs: seq<nat>, k: nat)
    requires Ordered(s.episodes) && cs == Candidates(s.rows, LastEnd(s)) && Cuts(bs, |cs|) && k < |bs|
    requires DistinctStarts(s.rows, cs, bs) && Loose(s, t, cs, bs, k)
    ensures !Collides(t, SegStart(s.rows, cs, bs, k))
  {
    EndsBefore(s);
    assert bs[k] in bs;
    assert cs[bs[k]] in cs;
    forall h: nat | h < k ensures SegStart(s.rows, cs, bs, h) < SegStart(s.rows, cs, bs, k) {
      StartsIncrease(s.rows, cs, bs, h, k);
    }
  }

  /** Turns may share a second. A close that commits every segment then covers
      every candidate exactly when no two segments begin in the same second: the
      later of two that do is taken for one already closed. */
  lemma CoversIffDistinctStarts(s: Session, cs: seq<nat>, bs: seq<nat>, infer: nat -> string)
    requires SortedEpochs(s.rows) && Ordered(s.episodes) && cs == Candidates(s.rows, LastEnd(s)) && Cuts(bs, |cs|)
    ensures var t := Committed(s, cs, bs, infer, |bs|);
      (forall c <- cs :: c < |t.rows| && t.rows[c].episode.Some?) <==> DistinctStarts(s.rows, cs, bs)
  {
    hide LastEnd, Committed, StartOf;
    var t := Committed(s, cs, bs, infer, |bs|);
    if DistinctStarts(s.rows, cs, bs) {
      hide DistinctStarts;
      DistinctCovers(s, cs, bs, infer);
    } else {
      var k: nat :| k < |bs| - 1 && !(SegStart(s.rows, cs, bs, k) < SegStart(s.rows, cs, bs, k + 1));
      hide DistinctStarts, SegStart;
      StartsSorted(s.rows, cs, bs, k);
      SkippedStaysOut(s, cs, bs, infer, k + 1, |bs|);
      hide Candidates, Ordered, SortedEpochs;
      assert cs[bs[k + 1]] in cs;
    }
  }

  lemma DistinctCovers(s: Session, cs: seq<nat>, bs: seq<nat>, infer: nat -> string)
    requires SortedEpochs(s.rows) && Ordered(s.episodes) && cs == Candidates(s.rows, LastEnd(s)) && Cuts(bs, |cs|)
    requires DistinctStarts(s.rows, cs, bs)
    ensures var t := Committed(s, cs, bs, infer, |bs|); forall c <- cs :: c < |t.rows| && t.rows[c].episode.Some?
  {
    hide LastEnd, Committed, StartOf, DistinctStarts;
    var t := Committed(s, cs, bs, infer, |bs|);
    DistinctCommitsAll(s, cs, bs, infer, |bs|);
    assert StartOf(bs, |cs|, |bs|) == |cs| by { EndIsCount(bs, |cs|); }
    hide Candidates, Ordered, SortedEpochs;
    forall c <- cs ensures c < |t.rows| && t.rows[c].episode.Some? {
      var j :| 0 <= j < |cs| && cs[j] == c;
    }
  }

  lemma EndIsCount(bs: seq<nat>, n: nat)
    ensures StartOf(bs, n, |bs|) == n
  {
  }

  lemma StartsSorted(rows: seq<Row>, cs: seq<nat>, bs: seq<nat>, k: nat)
    requires SortedEpochs(rows) && Ascending(cs) && Cuts(bs, |cs|) && k + 1 < |bs| && forall c <- cs :: c < |rows|
    ensures SegStart(rows, cs, bs, k) <= SegStart(rows, cs, bs, k + 1)
  {
    CutsBound(bs, |cs|, k);
    CutsBound(bs, |cs|, k + 1);
    AscendingIndex(cs, bs[k], bs[k + 1]);
    assert cs[bs[k]] in cs && cs[bs[k + 1]] in cs;
  }

  // ----- The service -----

  lemma EmptyWf()
    ensures Wf(Session([], []))
  {
    hide Candidates, Assign, LastEnd;
    var s := Session([], []);
    assert |s.rows| == 0 && |s.episodes| == 0;
    assert forall e: nat, m: nat :: !Lists(s.episodes, e, m);
  }

  lemma CaptureWf(s: Session, r: Row)
    requires Wf(s) && (s.rows != [] ==> s.rows[|s.rows| - 1].epoch < r.epoch) && r.episode.None?
    ensures Wf(Session(s.rows + [r], s.episodes))
  {
    var t := Session(s.rows + [r], s.episodes);
    forall i, j | 0 <= i < j < |t.rows| ensures t.rows[i].epoch < t.rows[j].epoch {
      if j == |s.rows| { assert i == |s.rows| - 1 || s.rows[i].epoch < s.rows[|s.rows| - 1].epoch; }
    }
    assert Membership(t);
  }

  lemma FillWf(s: Session, i: nat, r: Row)
    requires Wf(s) && i < |s.rows| && r.epoch == s.rows[i].epoch && r.episode == s.rows[i].episode
    ensures Wf(Session(s.rows[i := r], s.episodes))
  {
    var t := Session(s.rows[i := r], s.episodes);
    assert forall j | 0 <= j < |t.rows| :: t.rows[j].epoch == s.rows[j].epoch && t.rows[j].episode == s.rows[j].episode;
    assert Membership(t);
  }

  class EpisodeService {
    var rows: seq<Row>
    var episodes: seq<Episode>

    ghost function View(): Session
      reads this
    {
      Session(rows, episodes)
    }

    ghost predicate Valid()
      reads this
    {
      Wf(View())
    }

    constructor ()
      ensures Valid() && View() == Session([], [])
    {
      hide Wf;
      EmptyWf();
      rows, episodes := [], [];
    }

    /** A turn is captured; it has no summary yet. */
    method Capture(epoch: int)
      requires Valid() && (rows != [] ==> rows[|rows| - 1].epoch < epoch)
      modifies this
      ensures Valid() && rows == old(rows) + [Row(epoch, "", None, None, None)] && episodes == old(episodes)
    {
      hide Wf;
      CaptureWf(View(), Row(epoch, "", None, None, None));
      rows := rows + [Row(epoch, "", None, None, None)];
    }

    /** A summary or an embedding arrives for a turn, in any order. */
    method Fill(i: nat, text: string, turn: Option<seq<real>>, summary: Option<seq<real>>)
      requires Valid() && i < |rows|
      modifies this
      ensures Valid() && episodes == old(episodes)
      ensures rows == old(rows)[i := old(rows)[i].(text := text, turn := turn, summary := summary)]
    {
      hide Wf;
      FillWf(View(), i, rows[i].(text := text, turn := turn, summary := summary));
      rows := rows[i := rows[i].(text := text, turn := turn, summary := summary)];
    }

    method EpisodeCandidateTurns(since: int) returns (cs: seq<nat>)
      ensures cs == Candidates(rows, since)
    {
      cs := [];
      for i := 0 to |rows|
        invariant cs == Candidates(rows[..i], since)
      {
        assert rows[..i + 1][..i] == rows[..i];
        if Pending(rows[i], since) { cs := cs + [i]; }
      }
      assert rows[..|rows|] == rows;
    }

    /** Commits the segments in order, up to the first whose commit throws. */
    method CommitSegments(cs: seq<nat>, bs: seq<nat>, infer: nat -> string, stores: nat -> bool) returns (k: nat)
      requires Valid() && cs == Candidates(rows, LastEnd(View())) && Cuts(bs, |cs|)
      modifies this
      ensures Valid() && k <= |bs| && View() == Committed(old(View()), cs, bs, infer, k)
      ensures (forall b: nat | b < k :: stores(b)) && (k < |bs| ==> !stores(k))
      ensures Filed(old(View()), View(), cs, bs, infer, k)
    {
      hide Wf, Candidates, LastEnd, StoreSegment, Progress, Filed;
      var found := Session(rows, episodes);
      CommittedNone(found, cs, bs, infer);
      k := 0;
      while k < |bs| && stores(k)
        invariant k <= |bs| && View() == Committed(found, cs, bs, infer, k) && Valid()
        invariant forall b: nat | b < k :: stores(b)
      {
        CommitInv(found, cs, bs, infer, k + 1);
        var next := StoreSegment(found, Session(rows, episodes), cs, bs, k, infer(k));
        rows, episodes := next.rows, next.episodes;
        k := k + 1;
      }
      CommittedFiles(found, cs, bs, infer, k);
    }

    /** One attempt to close. `summarize` is what inference makes of the summaries of
        a segment, empty when it fails; `stores` says which commits throw. Nothing is
        stored unless every segment was summarized; then the segments are committed
        in order up to the first that throws, each with the summary of its own turns. */
    method HandleEpisodeClose(p: Params, sqrt: real -> real, endpoint: bool, summarize: seq<string> -> string,
                              stores: nat -> bool)
      returns (completed: bool, ghost cs: seq<nat>, ghost bs: seq<nat>, ghost k: nat, ghost infer: nat -> string)
      requires Valid()
      modifies this
      ensures Valid() && cs == Candidates(old(rows), LastEnd(old(View()))) && Cuts(bs, |cs|) && k <= |bs|
      ensures View() == Committed(old(View()), cs, bs, infer, k) && Filed(old(View()), View(), cs, bs, infer, k)
      ensures forall b: nat :: infer(b) == Inference(old(rows), cs, bs, summarize, b)
      ensures Summarized(old(View()), View(), summarize)
      ensures Boundaries(CandidatesOf(old(rows), cs), p, sqrt, bs)
      ensures !endpoint || (exists b: nat :: b < |bs| && infer(b) == "") ==> k == 0
      ensures endpoint && (forall b: nat | b < |bs| :: infer(b) != "") ==>
        (forall b: nat | b < k :: stores(b)) && (k < |bs| ==> !stores(k))
      ensures completed <==> k == |bs| > 0
    {
      hide Wf, Committed, Boundaries, Filed, Inference, Summarized;
      k, completed := 0, false;
      var since := if episodes == [] then 0 else episodes[|episodes| - 1].end;
      var found := EpisodeCandidateTurns(since);
      cs := found;
      var candidates := CandidatesOf(rows, found);
      var bounds := FindEpisodeBoundaries(candidates, p, sqrt);
      bs := bounds;
      CutsFromBoundaries(candidates, p, sqrt, bs, cs);
      var answers := Inferences(rows, found, bounds, summarize);
      infer := answers;
      CommittedNone(View(), cs, bs, infer);
      CommittedFiles(View(), cs, bs, infer, 0);
      ghost var was := View();
      OwnSummaries(was, was, cs, bs, infer, summarize, 0);
      hide Candidates, Cuts;
      if found == [] { return; }
      if !endpoint { return; }
      for b := 0 to |bounds|
        invariant forall h: nat | h < b :: answers(h) != ""
      {
        if answers(b) == "" { return; }
      }
      var done := CommitSegments(found, bounds, answers, stores);
      k := done;
      OwnSummaries(was, View(), cs, bs, infer, summarize, k);
      completed := done == |bounds|;
    }
  }

  function TextsAt(rows: seq<Row>, at: seq<nat>): (r: seq<string>)
    ensures |r| == |at| && forall i | 0 <= i < |at| :: r[i] == if at[i] < |rows| then rows[at[i]].text else ""
  {
    seq(|at|, i requires 0 <= i < |at| => if at[i] < |rows| then rows[at[i]].text else "")
  }

  /** What inference makes of the summaries of segment b. */
  function Inference(rows: seq<Row>, cs: seq<nat>, bs: seq<nat>, summarize: seq<string> -> string, b: nat): string {
    if b >= |bs| then ""
    else
      var first, behind := bs[b], if b + 1 < |bs| then bs[b + 1] else |cs|;
      if first <= behind <= |cs| then summarize(TextsAt(rows, cs[first..behind])) else ""
  }

  function Inferences(rows: seq<Row>, cs: seq<nat>, bs: seq<nat>, summarize: seq<string> -> string)
    : (infer: nat -> string)
    ensures forall b: nat :: infer(b) == Inference(rows, cs, bs, summarize, b)
  {
    (b: nat) => Inference(rows, cs, bs, summarize, b)
  }

  /** So each new episode carries what inference made of the summaries of its own
      turns, in order. */
  lemma OwnSummaries(s: Session, t: Session, cs: seq<nat>, bs: seq<nat>, infer: nat -> string,
                     summarize: seq<string> -> string, k: nat)
    requires Filed(s, t, cs, bs, infer, k)
    requires forall b: nat :: infer(b) == Inference(s.rows, cs, bs, summarize, b)
    ensures Summarized(s, t, summarize)
  {
    hide TextsAt;
    forall e | |s.episodes| <= e < |t.episodes|
      ensures t.episodes[e].text == summarize(TextsAt(s.rows, t.episodes[e].members))
    {
      assert FiledAt(s, t, cs, bs, infer, e - |s.episodes|);
    }
  }

  ghost predicate Summarized(s: Session, t: Session, summarize: seq<string> -> string) {
    s.episodes <= t.episodes && forall e | |s.episodes| <= e < |t.episodes| ::
      t.episodes[e].text == summarize(TextsAt(s.rows, t.episodes[e].members))
  }

  function CandidatesOf(rows: seq<Row>, cs: seq<nat>): (r: seq<Candidate>)
    requires forall c <- cs :: c < |rows| && rows[c].turn.Some? && rows[c].summary.Some?
    ensures |r| == |cs|
  {
    seq(|cs|, i requires 0 <= i < |cs| =>
      assert cs[i] in cs; Candidate(rows[cs[i]].epoch, rows[cs[i]].turn.value, rows[cs[i]].summary.value))
  }

  lemma CutsFromBoundaries(candidates: seq<Candidate>, p: Params, sqrt: real -> real, bs: seq<nat>, cs: seq<nat>)
    requires Boundaries(candidates, p, sqrt, bs) && |candidates| == |cs|
    requires (candidates == [] <==> bs == []) && (candidates != [] ==> bs[0] == 0)
    ensures Cuts(bs, |cs|)
  {
  }
}
