/** A query under way while an update promotes another model. `search` reads the
    mark, then whether the process is degraded, and only then asks the index; any
    writes may fall between. */
module ReembedQuery {
  import opened Wrappers
  import opened Reembed
  import opened ReembedRuns

  /** The identity under which the index answers: it encodes the query with the
      backend's embedder and decodes the vectors by the backend's storage type. */
  function Answers(p: Proc): Ident {
    if p.backend.Ready? then Ident(p.backend.model, p.backendVtype, p.backend.dims)
    else Ident(p.cfg.model, p.backendVtype, p.cfg.dims)
  }

  /** The index answers from vectors of one model, the query's included. */
  ghost predicate OneModel(s: State)
    requires s.proc.Some?
  {
    forall id <- s.db.rows :: s.db.rows[id].vec.Some? ==> s.db.rows[id].vec.value.made == Answers(s.proc.value)
  }

  /** A query reads the mark and goes on; a drifted process answers by text until
      an update has run. */
  predicate Admits(s: State) {
    s.proc.Some? && !s.db.repair && s.proc.value.cfg == s.db.ident
  }

  /** The write of the repair mark by an update. */
  predicate Marks(s: State, e: Step) {
    e.UpdateNext? && s.proc.Some? && s.proc.value.upd.Bumped?
  }

  predicate Bumps(s: State, e: Step) {
    e.UpdateNext? && s.proc.Some? && s.proc.value.upd.Built?
  }

  /** Since moment i no update has set the mark. */
  ghost predicate Unmarked(states: seq<State>, steps: seq<Step>, i: nat, j: nat) {
    j <= |steps| && j <= |states| && forall k | i <= k < j :: !Marks(states[k], steps[k])
  }

  /** Since moment i no update has bumped the version after another set the mark. */
  ghost predicate OneUpdate(states: seq<State>, steps: seq<Step>, i: nat, j: nat) {
    j <= |steps| && j <= |states| &&
    forall k, l | i <= k < l < j :: Marks(states[k], steps[k]) ==> !Bumps(states[l], steps[l])
  }

  // ----- What a step does to the vectors -----

  predicate WritesRow(e: Step) {
    e.Store? || e.SweepRow? || e.UpdateRow?
  }

  /** A row is written, with no vector or with one the index answers under. */
  ghost predicate RowWritten(s: State, t: State)
    requires s.proc.Some?
  {
    t.proc.Some? && t.proc.value.upd == s.proc.value.upd && Answers(t.proc.value) == Answers(s.proc.value) &&
    exists id, row :: WrittenAt(s, t, id, row)
  }

  ghost predicate WrittenAt(s: State, t: State, id: nat, row: Row)
    requires s.proc.Some?
  {
    && t.db == s.db.(rows := s.db.rows[id := row])
    && (row.vec.Some? ==> row.vec.value == Vec(Answers(s.proc.value), s.db.version))
  }

  lemma StoreWrites(s: State, id: nat, text: string, deferred: bool)
    requires s.proc.Some?
    ensures RowWritten(s, StoreRow(s.db, s.proc.value, id, text, deferred))
  {
    var t := StoreRow(s.db, s.proc.value, id, text, deferred);
    assert WrittenAt(s, t, id, t.db.rows[id]);
  }

  /** Outside the promotion embedder and backend are the same. */
  lemma OneEmbedder(s: State)
    requires Inv(s) && s.proc.Some? && !Renaming(s.proc.value.upd)
    ensures var p := s.proc.value;
      && p.backend == p.embedder
      && (p.sweep.Sweeping? ==> p.sweep.emb == p.backend)
      && (Reencoding(p.upd) ==> p.upd.emb == p.backend)
      && (p.embedder.Disabled? && p.cfg == s.db.ident ==> p.backendVtype == p.cfg.vtype)
  {
    hide HasVectors, HasText, RowsMatch;
  }

  lemma EncodeWrites(s: State, emb: Embedder, id: nat, w: Sweeper)
    requires s.proc.Some? && emb == s.proc.value.backend && emb.Ready? && id in s.db.rows
    ensures RowWritten(s, State(Encode(s.db, emb, s.proc.value.backendVtype, id), Some(s.proc.value.(sweep := w))))
  {
    var t := State(Encode(s.db, emb, s.proc.value.backendVtype, id), Some(s.proc.value.(sweep := w)));
    assert WrittenAt(s, t, id, t.db.rows[id]);
  }

  lemma StepWrites(s: State, e: Step)
    requires Inv(s) && Enabled(s, e) && Assumed(s, e, Strict) && WritesRow(e)
    ensures RowWritten(s, Apply(s, e)) && !InWindow(s.proc.value.upd)
  {
    hide RowWritten, StoreRow, Encode;
    StepOutside(s, e);
    hide Inv;
    OneEmbedder(s);
    var p := s.proc.value;
    match e
    case Store(id, text, deferred) => StoreWrites(s, id, text, deferred);
    case SweepRow(id) => EncodeWrites(s, p.sweep.emb, id, p.sweep.(count := p.sweep.count + 1));
    case UpdateRow(id) => EncodeWrites(s, p.upd.emb, id, p.sweep);
  }

  lemma StepOutside(s: State, e: Step)
    requires Inv(s) && Enabled(s, e) && Assumed(s, e, Strict) && WritesRow(e)
    ensures !InWindow(s.proc.value.upd)
  {
    hide HasVectors, HasText, RowsMatch, Steady, Mute, TargetOk;
  }

  /** Every other step leaves the rows alone; the version changes with the bump,
      and what the index answers under only in the promotion, with no vector current. */
  lemma StepKeeps(s: State, e: Step)
    requires Inv(s) && Enabled(s, e) && Assumed(s, e, Strict) && s.proc.Some? && !e.Crash? && !WritesRow(e)
    ensures var t := Apply(s, e);
      && t.proc.Some? && t.db.rows == s.db.rows && (Bumps(s, e) || t.db.version == s.db.version)
      && (Renaming(s.proc.value.upd) || Answers(t.proc.value) == Answers(s.proc.value))
      && (Renaming(s.proc.value.upd) || s.proc.value.upd.Marked? || Marks(s, e) ||
          (!Renaming(t.proc.value.upd) && !t.proc.value.upd.Marked?))
  {
    hide Inv, Advance, TryRecover, Boot, StoreRow, Encode, Answers;
    if e.Recover? {
      RecoverKeeps(s, e.loads);
    } else if e.UpdateNext? {
      AdvanceKeeps(s);
    } else {
      OtherKeeps(s, e);
    }
  }

  lemma OtherKeeps(s: State, e: Step)
    requires Enabled(s, e) && s.proc.Some? && !e.Crash? && !WritesRow(e) && !e.Recover? && !e.UpdateNext?
    ensures var t := Apply(s, e);
      && t.proc.Some? && t.db.rows == s.db.rows && t.db.version == s.db.version
      && Answers(t.proc.value) == Answers(s.proc.value)
      && (Renaming(s.proc.value.upd) || !Renaming(t.proc.value.upd))
      && (Renaming(s.proc.value.upd) || s.proc.value.upd.Marked? || !t.proc.value.upd.Marked?)
  {
    hide Boot, StoreRow, Encode, AllCurrent, AfterPass, Needs;
  }

  lemma RecoverKeeps(s: State, loads: bool)
    requires s.proc.Some?
    requires Inv(s) && !InWindow(s.proc.value.upd)
    ensures var q := TryRecover(s.proc.value, loads);
      Answers(q) == Answers(s.proc.value) && q.upd == s.proc.value.upd
  {
    OneEmbedder(s);
    hide Inv;
  }

  lemma AdvanceKeeps(s: State)
    requires s.proc.Some? && !s.proc.value.upd.Idle? && !s.proc.value.upd.Owned?
    ensures var t, u := Advance(s.db, s.proc.value), s.proc.value.upd;
      && t.proc.Some? && t.db.rows == s.db.rows && (u.Built? || t.db.version == s.db.version)
      && (Renaming(u) || Answers(t.proc.value) == Answers(s.proc.value))
      && (Renaming(u) || u.Marked? || u.Bumped? || (!Renaming(t.proc.value.upd) && !t.proc.value.upd.Marked?))
  {
  }

  lemma PromotionCurrent(s: State)
    requires Inv(s) && s.proc.Some? && Renaming(s.proc.value.upd)
    ensures NoneCurrent(s.db)
  {
    hide HasVectors, HasText, RowsMatch, Steady, Mute, TargetOk;
  }

  // ----- Up to the mark -----

  /** Everything is still of the identity the query was admitted under. */
  ghost predicate Untouched(s: State, seen: Ident) {
    s.proc.Some? && Answers(s.proc.value) == seen && OneModel(s) &&
    !s.proc.value.upd.Marked? && !Renaming(s.proc.value.upd)
  }

  lemma AdmitsUntouched(s: State)
    requires Inv(s) && Admits(s)
    ensures Untouched(s, s.db.ident)
  {
    hide HasVectors, HasText, VectorPath;
  }

  lemma UntouchedStays(s: State, e: Step, seen: Ident)
    requires Inv(s) && Untouched(s, seen) && Enabled(s, e) && Assumed(s, e, Strict) && !e.Crash? && !Marks(s, e)
    ensures Untouched(Apply(s, e), seen)
  {
    hide Inv, Enabled, Apply, Assumed, Answers;
    if WritesRow(e) {
      StepWrites(s, e);
    } else {
      StepKeeps(s, e);
    }
  }

  // ----- From the mark on -----

  /** Current vectors are of the identity the index answers under, the others of
      the one the query was admitted under. */
  ghost predicate Mixed(s: State, seen: Ident) {
    s.proc.Some? &&
    forall id <- s.db.rows :: s.db.rows[id].vec.Some? ==>
      s.db.rows[id].vec.value.made ==
        if s.db.rows[id].vec.value.stamp == s.db.version then Answers(s.proc.value) else seen
  }

  lemma MixedStays(s: State, e: Step, seen: Ident)
    requires Inv(s) && Mixed(s, seen) && Enabled(s, e) && Assumed(s, e, Strict) && !e.Crash? && !Bumps(s, e)
    ensures Mixed(Apply(s, e), seen)
  {
    hide Inv, Enabled, Apply, Assumed, Answers;
    if WritesRow(e) {
      StepWrites(s, e);
    } else {
      StepKeeps(s, e);
      if Renaming(s.proc.value.upd) { PromotionCurrent(s); }
    }
  }

  lemma MixedExactly(s: State, seen: Ident)
    requires Mixed(s, seen)
    ensures OneModel(s) <==> Answers(s.proc.value) == seen || Fresh(s.db)
  {
    if !Fresh(s.db) {
      var id :| id in s.db.rows && s.db.rows[id].vec.Some? && s.db.rows[id].vec.value.stamp != s.db.version;
      assert s.db.rows[id].vec.value.made == seen;
    }
  }

  // ----- A query over a run -----

  lemma {:induction false} QueryMixed(states: seq<State>, steps: seq<Step>, i: nat, j: nat)
    requires |states| > 0 && Init(states[0]) && AssumedRun(states, steps) && i <= j < |states|
    requires Admits(states[i]) && OneUpdate(states, steps, i, j) && forall k | i <= k < j :: !steps[k].Crash?
    ensures Mixed(states[j], states[i].db.ident)
    ensures Unmarked(states, steps, i, j) ==> Untouched(states[j], states[i].db.ident)
    decreases j
  {
    hide Inv, Enabled, Apply, Assumed, Mixed, Untouched, Admits;
    var seen := states[i].db.ident;
    RunInv(states, steps, i);
    if i == j {
      AdmitsUntouched(states[i]);
      UntouchedMixed(states[i], seen);
    } else {
      RunInv(states, steps, j - 1);
      QueryMixed(states, steps, i, j - 1);
      if Unmarked(states, steps, i, j) {
        UntouchedStays(states[j - 1], steps[j - 1], seen);
        UntouchedMixed(states[j], seen);
      } else if Bumps(states[j - 1], steps[j - 1]) {
        var k :| i <= k < j && Marks(states[k], steps[k]);
        assert false;
      } else {
        MixedStays(states[j - 1], steps[j - 1], seen);
      }
    }
  }

  lemma UntouchedMixed(s: State, seen: Ident)
    requires Untouched(s, seen)
    ensures Mixed(s, seen)
  {
  }

  /** A query admitted at moment i asks the index at moment j, in any run, with any
      writes between but a crash and a second update's. It sees one model exactly
      when the index still answers under the identity it was admitted under, or no
      stale vector is left; always when no update has set the mark since. */
  lemma QueryExactly(states: seq<State>, steps: seq<Step>, i: nat, j: nat)
    requires |states| > 0 && Init(states[0]) && AssumedRun(states, steps) && i <= j < |states|
    requires Admits(states[i]) && OneUpdate(states, steps, i, j) && forall k | i <= k < j :: !steps[k].Crash?
    ensures states[j].proc.Some?
    ensures OneModel(states[j]) <==> Answers(states[j].proc.value) == states[i].db.ident || Fresh(states[j].db)
    ensures Unmarked(states, steps, i, j) ==> OneModel(states[j])
  {
    hide Inv, Enabled, Apply, Assumed, Admits, Answers;
    QueryMixed(states, steps, i, j);
    MixedExactly(states[j], states[i].db.ident);
  }

  /** Such a query: search may take the vector path when it reads the mark, and the
      index answers with the new embedder over the old vectors. */
  lemma LateQueryBreaks() returns (n: nat, s: State, m: nat, t: State)
    ensures Init(Resting(1)) && Reaches(Resting(1), n, s, Strict) && VectorPath(s) && Admits(s)
    ensures Reaches(s, m, t, Strict) && t.proc.Some? && !OneModel(t)
  {
    hide Reaches, Enabled, Apply, Assumed;
    var db, p, to := Resting(1).db, Daemon(7, OLD), NEW;
    assert 1 in db.rows;
    ReachesSelf(Resting(1), Strict);
    n := BootStep(Resting(1), 0, db, 7, Strict);
    s := State(db, Some(p));
    ReachesSelf(s, Strict);
    m := OwnSteps(s, 0, db, p, Strict);
    db, p := db.(reembedding := true, pid := Some(7)), p.(upd := Owned(false));
    m := BumpSteps(s, m, db, p, to, Strict);
    db, p := db.(version := 2), p.(upd := Bumped(to, Ready("m1", 384)));
    m := NameSteps(s, m, db, p, Strict);
    db, p := db.(repair := true, ident := to), p.(upd := Modeled(to, p.upd.emb));
    m := TypeSteps(s, m, db, p, Strict);
    p := p.(upd := Sized(to, p.upd.emb));
    m := ConfigSteps(s, m, db, p, Strict);
    p := p.(cfg := to, upd := Retyped(to, p.upd.emb));
    m := SwapSteps(s, m, db, p, Strict);
    p := p.(embedder := p.upd.emb, backend := p.upd.emb, upd := Promoted(p.upd.emb));
    t := State(db, Some(p));
    assert 1 in t.db.rows && t.db.rows[1].vec.value.made == OLD;
  }
}
