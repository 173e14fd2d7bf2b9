/** Runs of the re-embed protocol: which assumption each needs, and a run that
    breaks without it. */
module ReembedRuns {
  import opened Wrappers
  import opened Reembed

  // ----- Runs that drop no assumption but one -----

  /** `t` is `n` steps from `s`, dropping no assumption but `slip`. */
  ghost predicate Reaches(s: State, n: nat, t: State, slip: Slip)
    decreases n, 1
  {
    if n == 0 then s == t else exists u, e :: ReachesVia(s, n, u, e, t, slip)
  }

  ghost predicate ReachesVia(s: State, n: nat, u: State, e: Step, t: State, slip: Slip)
    requires n > 0
    decreases n, 0
  {
    Enabled(u, e) && t == Apply(u, e) && Assumed(u, e, slip) && Reaches(s, n - 1, u, slip)
  }

  lemma Extend(s: State, n: nat, u: State, e: Step, t: State, slip: Slip) returns (n': nat)
    requires Reaches(s, n, u, slip) && Enabled(u, e) && Assumed(u, e, slip) && t == Apply(u, e)
    ensures Reaches(s, n', t, slip)
  {
    hide Enabled, Apply, Assumed;
    n' := n + 1;
    assert ReachesVia(s, n', u, e, t, slip);
  }

  lemma TwoSteps(s: State, n: nat, u: State, e1: Step, v: State, e2: Step, t: State, slip: Slip) returns (n': nat)
    requires Reaches(s, n, u, slip) && Enabled(u, e1) && Assumed(u, e1, slip) && v == Apply(u, e1)
    requires Enabled(v, e2) && Assumed(v, e2, slip) && t == Apply(v, e2)
    ensures Reaches(s, n', t, slip)
  {
    hide Enabled, Apply, Assumed, Reaches;
    n' := Extend(s, n, u, e1, v, slip);
    n' := Extend(s, n', v, e2, t, slip);
  }

  /** A run that drops no assumption keeps the invariant. */
  lemma {:induction false} ReachesInv(s: State, n: nat, t: State)
    requires Inv(s) && Reaches(s, n, t, Strict)
    ensures Inv(t)
  {
    hide Inv, Enabled, Apply, Assumed;
    if n > 0 {
      var u, e :| ReachesVia(s, n, u, e, t, Strict);
      ReachesInv(s, n - 1, u);
      StepInv(u, e);
    }
  }

  /** Whatever such a run reaches from a store at rest is safe. */
  lemma ReachesSafe(s: State, n: nat, t: State)
    requires Init(s) && Reaches(s, n, t, Strict)
    ensures Safe(t)
  {
    ReachesInv(s, n, t);
    InvSafe(t);
  }

  // ----- The steps of an update or a pass -----

  lemma ReachesSelf(s: State, slip: Slip)
    ensures Reaches(s, 0, s, slip)
  {
  }

  lemma RowStep(s: State, n: nat, db: Db, p: Proc, id: nat, slip: Slip) returns (n': nat)
    requires Reaches(s, n, State(db, Some(p)), slip) && p.upd.Promoted? && Encodes(db, p.upd.emb)
    requires id in db.rows && Embeddable(db.rows[id])
    ensures Reaches(s, n', State(Encode(db, p.upd.emb, p.backendVtype, id), Some(p)), slip)
  {
    hide Reaches;
    n' := Extend(s, n, State(db, Some(p)), UpdateRow(id), State(Encode(db, p.upd.emb, p.backendVtype, id), Some(p)),
                 slip);
  }

  lemma VerifySteps(s: State, n: nat, db: Db, p: Proc, slip: Slip) returns (n': nat)
    requires Reaches(s, n, State(db, Some(p)), slip) && p.upd.Promoted? && AllCurrent(db)
    ensures Reaches(s, n', State(db, Some(p.(upd := Verified))), slip)
  {
    hide Reaches;
    n' := TwoSteps(s, n, State(db, Some(p)), UpdateNext, State(db, Some(p.(upd := Verifying(p.upd.emb)))), UpdateNext,
                   State(db, Some(p.(upd := Verified))), slip);
  }

  lemma GiveUpSteps(s: State, n: nat, db: Db, p: Proc, slip: Slip) returns (n': nat)
    requires Reaches(s, n, State(db, Some(p)), slip) && p.upd.Promoted?
    ensures Reaches(s, n', State(db.(reembedding := false), Some(p.(upd := Disowning))), slip)
  {
    hide Reaches;
    n' := TwoSteps(s, n, State(db, Some(p)), UpdateThrow, State(db, Some(p.(upd := Closing))), UpdateNext,
                   State(db.(reembedding := false), Some(p.(upd := Disowning))), slip);
  }

  lemma DisownStep(s: State, n: nat, db: Db, p: Proc, slip: Slip) returns (n': nat)
    requires Reaches(s, n, State(db, Some(p)), slip) && p.upd.Disowning?
    ensures Reaches(s, n', State(db.(pid := None), Some(p.(upd := Idle))), slip)
  {
    hide Reaches;
    n' := Extend(s, n, State(db, Some(p)), UpdateNext, State(db.(pid := None), Some(p.(upd := Idle))), slip);
  }

  const OLD := Ident("m0", "f16", 384)
  const NEW := Ident("m1", "f16", 384)

  ghost function Resting(stamp: nat): State {
    State(Db(false, None, false, OLD, 1, map[1 := Row("a", Some(Vec(OLD, stamp)))], "f16", 384,
             map["m0" := 384, "m1" := 384]), None)
  }

  function Daemon(me: Pid, ident: Ident): Proc {
    Proc(me, ident, Ready(ident.model, ident.dims), Ready(ident.model, ident.dims), ident.vtype, false, Idle, Rest,
         map[])
  }

  lemma BootStep(s: State, n: nat, db: Db, me: Pid, slip: Slip) returns (n': nat)
    requires Reaches(s, n, State(db, None), slip) && HasVectors(db) && !Drift(db)
    ensures Reaches(s, n', State(db, Some(Daemon(me, db.ident))), slip)
  {
    hide Reaches;
    n' := Extend(s, n, State(db, None), Start(me, true), State(db, Some(Daemon(me, db.ident))), slip);
  }

  lemma OwnSteps(s: State, n: nat, db: Db, p: Proc, slip: Slip) returns (n': nat)
    requires Reaches(s, n, State(db, Some(p)), slip) && p.upd.Idle?
    ensures Reaches(s, n', State(db.(reembedding := true, pid := Some(p.me)), Some(p.(upd := Owned(db.repair)))), slip)
  {
    hide Reaches;
    n' := TwoSteps(s, n, State(db, Some(p)), UpdateStart,
                   State(db.(reembedding := true), Some(p.(upd := Flagged(db.repair)))), UpdateNext,
                   State(db.(reembedding := true, pid := Some(p.me)), Some(p.(upd := Owned(db.repair)))), slip);
  }

  /** The staged width is the configured one, or the model throws for every text
      and there is a text. */
  predicate WidthAllowed(db: Db, p: Proc, to: Ident) {
    to.dims == p.cfg.dims || (!Encodes(db, Ready(to.model, p.cfg.dims)) && HasText(db))
  }

  lemma BumpSteps(s: State, n: nat, db: Db, p: Proc, to: Ident, slip: Slip) returns (n': nat)
    requires Reaches(s, n, State(db, Some(p)), slip) && p.upd.Owned?
    requires slip.Any? || slip.OtherWidth? || WidthAllowed(db, p, to)
    requires slip.Any? || slip.Wrapped? || Unwrapped(db)
    requires slip.Any? || slip.Overlap? || p.sweep.Rest?
    ensures Reaches(s, n', State(db.(version := NextVersion(db.version)),
                                 Some(p.(upd := Bumped(to, Ready(to.model, p.cfg.dims))))), slip)
  {
    hide Reaches;
    var emb := Ready(to.model, p.cfg.dims);
    n' := TwoSteps(s, n, State(db, Some(p)), UpdateBuild(to),
                   State(db, Some(p.(upd := Built(to, emb)))), UpdateNext,
                   State(db.(version := NextVersion(db.version)), Some(p.(upd := Bumped(to, emb)))), slip);
  }

  /** The repair mark, then the recorded model. */
  lemma NameSteps(s: State, n: nat, db: Db, p: Proc, slip: Slip) returns (n': nat)
    requires Reaches(s, n, State(db, Some(p)), slip) && p.upd.Bumped?
    ensures Reaches(s, n', State(db.(repair := true, ident := db.ident.(model := p.upd.to.model)),
                                 Some(p.(upd := Modeled(p.upd.to, p.upd.emb)))), slip)
  {
    hide Reaches;
    var to, emb := p.upd.to, p.upd.emb;
    n' := TwoSteps(s, n, State(db, Some(p)), UpdateNext,
                   State(db.(repair := true), Some(p.(upd := Marked(to, emb)))), UpdateNext,
                   State(db.(repair := true, ident := db.ident.(model := to.model)),
                         Some(p.(upd := Modeled(to, emb)))), slip);
  }

  lemma TypeSteps(s: State, n: nat, db: Db, p: Proc, slip: Slip) returns (n': nat)
    requires Reaches(s, n, State(db, Some(p)), slip) && p.upd.Modeled? && db.ident.model == p.upd.to.model
    ensures Reaches(s, n', State(db.(ident := p.upd.to), Some(p.(upd := Sized(p.upd.to, p.upd.emb)))), slip)
  {
    hide Reaches;
    var to, emb := p.upd.to, p.upd.emb;
    n' := TwoSteps(s, n, State(db, Some(p)), UpdateNext,
                   State(db.(ident := db.ident.(vtype := to.vtype)), Some(p.(upd := Typed(to, emb)))), UpdateNext,
                   State(db.(ident := to), Some(p.(upd := Sized(to, emb)))), slip);
  }

  lemma ConfigSteps(s: State, n: nat, db: Db, p: Proc, slip: Slip) returns (n': nat)
    requires Reaches(s, n, State(db, Some(p)), slip) && p.upd.Sized?
    ensures Reaches(s, n', State(db, Some(p.(cfg := p.upd.to, backendVtype := p.upd.to.vtype,
                                             upd := Retyped(p.upd.to, p.upd.emb)))), slip)
  {
    hide Reaches;
    var to, emb := p.upd.to, p.upd.emb;
    n' := TwoSteps(s, n, State(db, Some(p)), UpdateNext,
                   State(db, Some(p.(cfg := to, upd := Configured(to, emb)))), UpdateNext,
                   State(db, Some(p.(cfg := to, backendVtype := to.vtype, upd := Retyped(to, emb)))), slip);
  }

  lemma SwapSteps(s: State, n: nat, db: Db, p: Proc, slip: Slip) returns (n': nat)
    requires Reaches(s, n, State(db, Some(p)), slip) && p.upd.Retyped?
    ensures Reaches(s, n', State(db, Some(p.(embedder := p.upd.emb, backend := p.upd.emb,
                                             upd := Promoted(p.upd.emb)))), slip)
  {
    hide Reaches;
    var to, emb := p.upd.to, p.upd.emb;
    n' := TwoSteps(s, n, State(db, Some(p)), UpdateNext,
                   State(db, Some(p.(embedder := emb, upd := Swapped(to, emb)))), UpdateNext,
                   State(db, Some(p.(embedder := emb, backend := emb, upd := Promoted(emb)))), slip);
  }

  /** A thread finds the flag stale and writes all three settings. */
  lemma HealSteps(s: State, n: nat, db: Db, p: Proc, ownerAlive: bool, slip: Slip) returns (n': nat)
    requires Reaches(s, n, State(db, Some(p)), slip)
    requires db.reembedding && !(db.pid.Some? && db.pid.value > 0 && (db.pid.value == p.me || ownerAlive))
    requires p.healers == map[]
    ensures Reaches(s, n', State(db.(reembedding := false, pid := None, repair := true), Some(p)), slip)
  {
    hide Reaches;
    assert map[][0 := FlagNext] == map[0 := FlagNext] && map[0 := FlagNext][0 := PidNext] == map[0 := PidNext];
    n' := TwoSteps(s, n, State(db, Some(p)), HealBegin(0, ownerAlive),
                   State(db, Some(p.(healers := map[0 := FlagNext]))), HealWrite(0),
                   State(db.(reembedding := false), Some(p.(healers := map[0 := PidNext]))), slip);
    n' := HealTail(s, n', db, p, slip);
  }

  lemma HealTail(s: State, n: nat, db: Db, p: Proc, slip: Slip) returns (n': nat)
    requires Reaches(s, n, State(db.(reembedding := false), Some(p.(healers := map[0 := PidNext]))), slip)
    requires p.healers == map[]
    ensures Reaches(s, n', State(db.(reembedding := false, pid := None, repair := true), Some(p)), slip)
  {
    hide Reaches;
    assert map[0 := PidNext][0 := MarkNext] == map[0 := MarkNext] && map[0 := MarkNext] - {0} == map[];
    n' := TwoSteps(s, n, State(db.(reembedding := false), Some(p.(healers := map[0 := PidNext]))), HealWrite(0),
                   State(db.(reembedding := false, pid := None), Some(p.(healers := map[0 := MarkNext]))), HealWrite(0),
                   State(db.(reembedding := false, pid := None, repair := true), Some(p)), slip);
  }

  /** The daemon dies, restarts and heals the flag it left. */
  lemma DieAndHeal(s: State, n: nat, db: Db, p: Proc, slip: Slip) returns (n': nat)
    requires Reaches(s, n, State(db, Some(p)), slip)
    requires db.reembedding && db.pid == Some(7) && HasVectors(db) && !Drift(db)
    ensures Reaches(s, n', State(db.(reembedding := false, pid := None, repair := true), Some(Daemon(8, db.ident))),
                    slip)
  {
    hide Reaches;
    n' := Extend(s, n, State(db, Some(p)), Crash, State(db, None), slip);
    n' := BootStep(s, n', db, 8, slip);
    n' := HealSteps(s, n', db, Daemon(8, db.ident), false, slip);
  }

  lemma SweepBeginStep(s: State, n: nat, db: Db, p: Proc, resume: bool, slip: Slip) returns (n': nat)
    requires Reaches(s, n, State(db, Some(p)), slip) && p.sweep.Rest?
    requires slip.Any? || ((!InWindow(p.upd) || slip.Overlap?) && !p.degraded)
    ensures Reaches(s, n', State(db, Some(p.(sweep := Sweeping(resume, p.embedder, 0, 0)))), slip)
  {
    hide Reaches;
    n' := Extend(s, n, State(db, Some(p)), SweepBegin(resume),
                 State(db, Some(p.(sweep := Sweeping(resume, p.embedder, 0, 0)))), slip);
  }

  lemma SweepRowStep(s: State, n: nat, db: Db, p: Proc, id: nat, slip: Slip) returns (n': nat)
    requires Reaches(s, n, State(db, Some(p)), slip) && Needs(db, id)
    requires p.sweep.Sweeping? && Encodes(db, p.sweep.emb)
    ensures Reaches(s, n', State(Encode(db, p.sweep.emb, p.backendVtype, id),
                                 Some(p.(sweep := p.sweep.(count := p.sweep.count + 1)))), slip)
  {
    hide Reaches;
    n' := Extend(s, n, State(db, Some(p)), SweepRow(id),
                 State(Encode(db, p.sweep.emb, p.backendVtype, id),
                       Some(p.(sweep := p.sweep.(count := p.sweep.count + 1)))), slip);
  }

  lemma SweepEndStep(s: State, n: nat, db: Db, p: Proc, slip: Slip) returns (n': nat)
    requires Reaches(s, n, State(db, Some(p)), slip) && p.sweep.Sweeping? && (p.sweep.emb.Disabled? || AllCurrent(db))
    ensures Reaches(s, n', State(db, Some(p.(sweep := AfterPass(p.sweep)))), slip)
  {
    hide Reaches;
    n' := Extend(s, n, State(db, Some(p)), SweepEnd, State(db, Some(p.(sweep := AfterPass(p.sweep)))), slip);
  }

  lemma SweepThrowStep(s: State, n: nat, db: Db, p: Proc, slip: Slip) returns (n': nat)
    requires Reaches(s, n, State(db, Some(p)), slip) && p.sweep.Sweeping?
    ensures Reaches(s, n', State(db, Some(p.(sweep := Rest))), slip)
  {
    hide Reaches;
    n' := Extend(s, n, State(db, Some(p)), SweepThrow, State(db, Some(p.(sweep := Rest))), slip);
  }

  lemma SweepClearStep(s: State, n: nat, db: Db, p: Proc, slip: Slip) returns (n': nat)
    requires Reaches(s, n, State(db, Some(p)), slip) && p.sweep.Settled?
    ensures Reaches(s, n', State(db.(repair := false), Some(p.(sweep := Rest))), slip)
  {
    hide Reaches;
    n' := Extend(s, n, State(db, Some(p)), SweepClear, State(db.(repair := false), Some(p.(sweep := Rest))), slip);
  }

  lemma SweepRowSteps(s: State, n: nat, db: Db, p: Proc, slip: Slip) returns (n': nat)
    requires Reaches(s, n, State(db, Some(p)), slip) && Needs(db, 1)
    requires p.sweep.Sweeping? && p.sweep.resume && Encodes(db, p.sweep.emb) && p.sweep.pass == 0
    requires AllCurrent(Encode(db, p.sweep.emb, p.backendVtype, 1))
    ensures Reaches(s, n', State(Encode(db, p.sweep.emb, p.backendVtype, 1),
                                 Some(p.(sweep := p.sweep.(pass := 1, count := 0)))), slip)
  {
    hide Reaches;
    var db' := Encode(db, p.sweep.emb, p.backendVtype, 1);
    n' := SweepRowStep(s, n, db, p, 1, slip);
    n' := SweepEndStep(s, n', db', p.(sweep := p.sweep.(count := p.sweep.count + 1)), slip);
  }

  lemma SettleSteps(s: State, n: nat, db: Db, p: Proc, slip: Slip) returns (n': nat)
    requires Reaches(s, n, State(db, Some(p)), slip)
    requires p.sweep.Sweeping? && p.sweep.resume && p.sweep.count == 0 && AllCurrent(db)
    ensures Reaches(s, n', State(db.(repair := false), Some(p.(sweep := Rest))), slip)
  {
    hide Reaches;
    n' := SweepEndStep(s, n, db, p, slip);
    n' := SweepClearStep(s, n', db, p.(sweep := Settled), slip);
  }

  lemma FinishSteps(s: State, n: nat, db: Db, p: Proc, slip: Slip) returns (n': nat)
    requires Reaches(s, n, State(db, Some(p)), slip) && (p.upd.Verified? || p.upd.Failing?)
    ensures Reaches(s, n', State(db.(repair := false, reembedding := false), Some(p.(upd := Disowning))), slip)
  {
    hide Reaches;
    n' := TwoSteps(s, n, State(db, Some(p)), UpdateNext,
                   State(db.(repair := false), Some(p.(upd := Closing))), UpdateNext,
                   State(db.(repair := false, reembedding := false), Some(p.(upd := Disowning))), slip);
  }

  lemma RebuildSteps(s: State, n: nat, db: Db, p: Proc, slip: Slip) returns (n': nat)
    requires Reaches(s, n, State(db, Some(p)), slip) && p.upd.Promoted? && Encodes(db, p.upd.emb) && Needs(db, 1)
    requires AllCurrent(Encode(db, p.upd.emb, p.backendVtype, 1))
    ensures Reaches(s, n', State(Encode(db, p.upd.emb, p.backendVtype, 1), Some(p.(upd := Verified))), slip)
  {
    hide Reaches;
    var db' := Encode(db, p.upd.emb, p.backendVtype, 1);
    n' := TwoSteps(s, n, State(db, Some(p)), UpdateRow(1), State(db', Some(p)), UpdateNext,
                   State(db', Some(p.(upd := Verifying(p.upd.emb)))), slip);
    n' := Extend(s, n', State(db', Some(p.(upd := Verifying(p.upd.emb)))), UpdateNext,
                 State(db', Some(p.(upd := Verified))), slip);
  }

  /** From rest to a bumped update of `to`. */
  lemma ToBumped(stamp: nat, to: Ident, slip: Slip) returns (n: nat, db: Db, p: Proc)
    requires (to.dims == 384 || slip.OtherWidth?) && (stamp == 1 || slip.Wrapped?)
    ensures Reaches(Resting(stamp), n, State(db, Some(p)), slip)
    ensures db == Resting(stamp).db.(reembedding := true, pid := Some(7), version := 2)
    ensures p == Daemon(7, OLD).(upd := Bumped(to, Ready(to.model, 384)))
  {
    hide Enabled, Apply, Assumed;
    var s := Resting(stamp);
    assert 1 in s.db.rows;
    n := BootStep(s, 0, s.db, 7, slip);
    n := OwnSteps(s, n, s.db, Daemon(7, OLD), slip);
    db := s.db.(reembedding := true, pid := Some(7));
    n := BumpSteps(s, n, db, Daemon(7, OLD).(upd := Owned(false)), to, slip);
    db, p := db.(version := 2), Daemon(7, OLD).(upd := Bumped(to, Ready(to.model, 384)));
  }

  /** A failed build clears a repair owed by an earlier, interrupted run. */
  lemma UnownedThrowBreaks() returns (n: nat, t: State)
    ensures Init(Resting(1)) && Reaches(Resting(1), n, t, UnownedThrow) && !Safe(t)
  {
    hide Reaches, Enabled, Apply, Assumed;
    var s, slip := Resting(1), UnownedThrow;
    var db, p;
    n, db, p := ToBumped(1, NEW, slip);
    n := NameSteps(s, n, db, p, slip);
    db, p := db.(repair := true, ident := NEW), p.(upd := Modeled(NEW, p.upd.emb));
    assert 1 in db.rows && db.rows[1].vec.value.made == OLD;
    n := DieAndHeal(s, n, db, p, slip);
    db, p := db.(reembedding := false, pid := None), Daemon(8, NEW);
    n := OwnSteps(s, n, db, p, slip);
    db, p := db.(reembedding := true, pid := Some(8)), p.(upd := Owned(true));
    n := ThrowStep(s, n, db, p, slip);
    n := FinishSteps(s, n, db, p.(upd := Failing), slip);
    t := State(db.(repair := false, reembedding := false), Some(p.(upd := Disowning)));
  }

  lemma ThrowStep(s: State, n: nat, db: Db, p: Proc, slip: Slip) returns (n': nat)
    requires Reaches(s, n, State(db, Some(p)), slip) && p.upd.Owned? && (slip.UnownedThrow? || slip.Any? || !p.upd.owed)
    ensures Reaches(s, n', State(db, Some(p.(upd := Failing))), slip)
  {
    hide Reaches;
    n' := Extend(s, n, State(db, Some(p)), UpdateThrow, State(db, Some(p.(upd := Failing))), slip);
  }

  lemma StoreStep(s: State, n: nat, db: Db, p: Proc, slip: Slip) returns (n': nat)
    requires Reaches(s, n, State(db, Some(p)), slip) && slip.WriterInWindow? && 2 !in db.rows && Encodes(db, p.backend)
    ensures var made := Ident(p.backend.model, p.backendVtype, p.backend.dims);
      Reaches(s, n', State(db.(rows := db.rows[2 := Row("b", Some(Vec(made, db.version)))]), Some(p)), slip)
  {
    hide Reaches;
    n' := Extend(s, n, State(db, Some(p)), Store(2, "b", false), Apply(State(db, Some(p)), Store(2, "b", false)), slip);
  }

  /** A capture between the bump and the swap is stamped current with the old model. */
  lemma WriterInWindowBreaks() returns (n: nat, t: State)
    ensures Init(Resting(1)) && Reaches(Resting(1), n, t, WriterInWindow) && !Safe(t)
  {
    hide Reaches, Enabled, Apply, Assumed;
    var s, slip := Resting(1), WriterInWindow;
    var db, p;
    n, db, p := ToBumped(1, NEW, slip);
    n := StoreStep(s, n, db, p, slip);
    db := db.(rows := db.rows[2 := Row("b", Some(Vec(OLD, 2)))]);
    n := NameSteps(s, n, db, p, slip);
    db, p := db.(repair := true, ident := NEW), p.(upd := Modeled(NEW, p.upd.emb));
    assert 2 in db.rows && db.rows[2].vec.value.made == OLD;
    n := DieAndHeal(s, n, db, p, slip);
    db, p := db.(reembedding := false, pid := None), Daemon(8, NEW);
    n := SweepBeginStep(s, n, db, p, true, slip);
    p := p.(sweep := Sweeping(true, p.embedder, 0, 0));
    n := SweepRowSteps(s, n, db, p, slip);
    db, p := Encode(db, p.sweep.emb, p.backendVtype, 1), p.(sweep := p.sweep.(pass := 1, count := 0));
    n := SettleSteps(s, n, db, p, slip);
    t := State(db.(repair := false), Some(p.(sweep := Rest)));
    assert 2 in t.db.rows && t.db.rows[2].vec.value.made == OLD;
  }

  /** A version byte that comes round to an old row's makes the row look done. */
  lemma WrappedBreaks() returns (n: nat, t: State)
    ensures Init(Resting(2)) && Reaches(Resting(2), n, t, Wrapped) && !Safe(t)
  {
    hide Reaches, Enabled, Apply, Assumed;
    var s, slip := Resting(2), Wrapped;
    var db, p;
    n, db, p := ToBumped(2, NEW, slip);
    n := NameSteps(s, n, db, p, slip);
    db, p := db.(repair := true, ident := NEW), p.(upd := Modeled(NEW, p.upd.emb));
    assert 1 in db.rows && db.rows[1].vec.value.made == OLD;
    n := DieAndHeal(s, n, db, p, slip);
    db, p := db.(reembedding := false, pid := None), Daemon(8, NEW);
    n := SweepBeginStep(s, n, db, p, true, slip);
    n := SettleSteps(s, n, db, p.(sweep := Sweeping(true, p.embedder, 0, 0)), slip);
    t := State(db.(repair := false), Some(p));
  }

  /** A staged width other than the embedder's is recorded but never produced. */
  lemma OtherWidthBreaks() returns (n: nat, t: State)
    ensures Init(Resting(1)) && Reaches(Resting(1), n, t, OtherWidth) && !Safe(t)
  {
    hide Reaches, Enabled, Apply, Assumed;
    var s, slip, wide := Resting(1), OtherWidth, OLD.(dims := 512);
    var db, p;
    n, db, p := ToBumped(1, wide, slip);
    n := NameSteps(s, n, db, p, slip);
    db, p := db.(repair := true), p.(upd := Modeled(wide, p.upd.emb));
    n := TypeSteps(s, n, db, p, slip);
    db, p := db.(ident := wide), p.(upd := Sized(wide, p.upd.emb));
    n := ConfigSteps(s, n, db, p, slip);
    p := p.(cfg := wide, upd := Retyped(wide, p.upd.emb));
    n := SwapSteps(s, n, db, p, slip);
    p := p.(upd := Promoted(p.upd.emb));
    n := RebuildSteps(s, n, db, p, slip);
    db, p := Encode(db, p.upd.emb, p.backendVtype, 1), p.(upd := Verified);
    n := FinishSteps(s, n, db, p, slip);
    t := State(db.(repair := false, reembedding := false), Some(p.(upd := Disowning)));
    assert 1 in t.db.rows && t.db.rows[1].vec.value.made == OLD;
  }

  lemma FlagStep(s: State, n: nat, db: Db, p: Proc, slip: Slip) returns (n': nat)
    requires Reaches(s, n, State(db, Some(p)), slip) && p.upd.Idle?
    ensures Reaches(s, n', State(db.(reembedding := true), Some(p.(upd := Flagged(db.repair)))), slip)
  {
    hide Reaches;
    n' := Extend(s, n, State(db, Some(p)), UpdateStart,
                 State(db.(reembedding := true), Some(p.(upd := Flagged(db.repair)))), slip);
  }

  lemma PidStep(s: State, n: nat, db: Db, p: Proc, slip: Slip) returns (n': nat)
    requires Reaches(s, n, State(db, Some(p)), slip) && p.upd.Flagged?
    ensures Reaches(s, n', State(db.(pid := Some(p.me)), Some(p.(upd := Owned(p.upd.owed)))), slip)
  {
    hide Reaches;
    n' := Extend(s, n, State(db, Some(p)), UpdateNext,
                 State(db.(pid := Some(p.me)), Some(p.(upd := Owned(p.upd.owed)))), slip);
  }

  /** A pass still at work when the version is bumped goes on with the old
      embedder under the new version. Here the flag and its owner being two writes
      lets a search judge the flag stale and housekeeping resume beside the update;
      the pass then clears the mark after the new model is recorded. */
  lemma OverlapBreaks() returns (n: nat, t: State)
    ensures Init(Resting(1)) && Reaches(Resting(1), n, t, Overlap) && !Safe(t)
  {
    hide Enabled, Apply, Assumed;
    var s, slip := Resting(1), Overlap;
    var db, p := s.db, Daemon(7, OLD);
    assert 1 in db.rows;
    n := BootStep(s, 0, db, 7, slip);
    n := FlagStep(s, n, db, p, slip);
    n := HealSteps(s, n, db.(reembedding := true), p.(upd := Flagged(false)), false, slip);
    db := db.(repair := true);
    n := PidStep(s, n, db, p.(upd := Flagged(false)), slip);
    db, p := db.(pid := Some(7)), p.(upd := Owned(false));
    n := SweepBeginStep(s, n, db, p, true, slip);
    p := p.(sweep := Sweeping(true, p.embedder, 0, 0));
    n := BumpSteps(s, n, db, p, NEW, slip);
    db, p := db.(version := 2), p.(upd := Bumped(NEW, Ready("m1", 384)));
    n := SweepRowSteps(s, n, db, p, slip);
    db, p := Encode(db, p.sweep.emb, p.backendVtype, 1), p.(sweep := p.sweep.(pass := 1, count := 0));
    n := NameSteps(s, n, db, p, slip);
    db, p := db.(ident := NEW), p.(upd := Modeled(NEW, p.upd.emb));
    n := SettleSteps(s, n, db, p, slip);
    t := State(db.(repair := false), Some(p.(sweep := Rest)));
    assert 1 in t.db.rows && t.db.rows[1].vec.value.made == OLD;
  }

  /** The state as another update's thread sees it. */
  function Beside(s: State, other: Updater): State
    requires s.proc.Some?
  {
    State(s.db, Some(s.proc.value.(upd := other)))
  }

  /** Two updates at once, each passing the other's flag: one re-encodes every row,
      the other then records its own model, and the first takes the mark and the
      flag down. No other assumption is dropped. */
  lemma TwoUpdatesBreak() returns (n: nat, u: State, m: nat, v: State, k: nat, t: State)
    ensures Init(Resting(1)) && Reaches(Resting(1), n, u, Strict) && u.proc.Some?
    ensures Reaches(Beside(u, Idle), m, v, Strict) && v.proc.Some?
    ensures Reaches(Beside(v, u.proc.value.upd), k, t, Strict) && !Safe(t)
  {
    hide Reaches, Enabled, Apply, Assumed;
    var s, to := Resting(1), NEW.(model := "m2");
    var db, p;
    n, db, p := ToBumped(1, NEW, Strict);
    n := NameSteps(s, n, db, p, Strict);
    db, p := db.(repair := true, ident := NEW), p.(upd := Modeled(NEW, p.upd.emb));
    n := TypeSteps(s, n, db, p, Strict);
    p := p.(upd := Sized(NEW, p.upd.emb));
    n := ConfigSteps(s, n, db, p, Strict);
    p := p.(cfg := NEW, upd := Retyped(NEW, p.upd.emb));
    n := SwapSteps(s, n, db, p, Strict);
    p := p.(embedder := p.upd.emb, backend := p.upd.emb, upd := Promoted(p.upd.emb));
    assert 1 in db.rows;
    n := RebuildSteps(s, n, db, p, Strict);
    db, p := Encode(db, p.upd.emb, p.backendVtype, 1), p.(upd := Verified);
    u := State(db, Some(p));
    var q := p.(upd := Idle);
    ReachesSelf(State(db, Some(q)), Strict);
    m := OwnSteps(State(db, Some(q)), 0, db, q, Strict);
    q := q.(upd := Owned(true));
    m := BumpSteps(State(db, Some(p.(upd := Idle))), m, db, q, to, Strict);
    var db2 := db.(version := 3);
    q := q.(upd := Bumped(to, Ready("m2", 384)));
    m := NameSteps(State(db, Some(p.(upd := Idle))), m, db2, q, Strict);
    db2, q := db2.(ident := to), q.(upd := Modeled(to, q.upd.emb));
    v := State(db2, Some(q));
    ReachesSelf(State(db2, Some(p)), Strict);
    k := FinishSteps(State(db2, Some(p)), 0, db2, p, Strict);
    t := State(db2.(repair := false, reembedding := false), Some(p.(upd := Disowning)));
    assert 1 in t.db.rows && t.db.rows[1].vec.value.made == NEW;
  }

  /** A whole, undisturbed update to another vector type, and a restart: every
      vector is of the recorded identity and no repair is owed, but the
      configuration row still names the old type, and search is text-only. */
  lemma TypeChangeTextOnly() returns (n: nat, t: State)
    ensures Init(Resting(1)) && Reaches(Resting(1), n, t, Strict)
    ensures t.proc.Some? && t.proc.value.embedder.Ready? && Pure(t.db) && AllCurrent(t.db) && HasVectors(t.db)
    ensures !t.db.repair && !t.db.reembedding && !VectorPath(t)
  {
    hide Reaches, Enabled, Apply, Assumed;
    var s, to := Resting(1), OLD.(vtype := "f32");
    var db, p;
    n, db, p := ToBumped(1, to, Strict);
    n := NameSteps(s, n, db, p, Strict);
    db, p := db.(repair := true), p.(upd := Modeled(to, p.upd.emb));
    n := TypeSteps(s, n, db, p, Strict);
    db, p := db.(ident := to), p.(upd := Sized(to, p.upd.emb));
    n := ConfigSteps(s, n, db, p, Strict);
    p := p.(cfg := to, backendVtype := "f32", upd := Retyped(to, p.upd.emb));
    n := SwapSteps(s, n, db, p, Strict);
    p := p.(upd := Promoted(p.upd.emb));
    n := RebuildSteps(s, n, db, p, Strict);
    db, p := Encode(db, p.upd.emb, p.backendVtype, 1), p.(upd := Verified);
    n := FinishSteps(s, n, db, p, Strict);
    db, p := db.(repair := false, reembedding := false), p.(upd := Disowning);
    n := DisownStep(s, n, db, p, Strict);
    db := db.(pid := None);
    assert 1 in db.rows && db.rows[1].vec.Some?;
    n := Extend(s, n, State(db, Some(p.(upd := Idle))), Crash, State(db, None), Strict)
      by { CrashStep(db, p.(upd := Idle)); }
    t := Boot(db, 8, true);
    n := Extend(s, n, State(db, None), Start(8, true), t, Strict) by { StartStep(db, 8, true); }
  }

  lemma CrashStep(db: Db, p: Proc)
    ensures var s := State(db, Some(p));
      Enabled(s, Crash) && Assumed(s, Crash, Strict) && Apply(s, Crash) == State(db, None)
  {
  }

  lemma StartStep(db: Db, me: Pid, loads: bool)
    ensures var s := State(db, None);
      Enabled(s, Start(me, loads)) && Assumed(s, Start(me, loads), Strict) &&
      Apply(s, Start(me, loads)) == Boot(db, me, loads)
  {
  }

  // ----- When a failed build is safe -----

  /** The failure handler of an update that could not build its embedder. */
  function FailedBuild(s: State): State
    requires s.proc.Some? && s.proc.value.upd.Owned?
  {
    hide Boot, StoreRow, Heal, AllCurrent, Needs, TryRecover, AfterPass, Encode;
    var thrown := Apply(s, UpdateThrow);
    var cleared := Apply(thrown, UpdateNext);
    var lowered := Apply(cleared, UpdateNext);
    Apply(lowered, UpdateNext)
  }

  /** A failed build leaves search right exactly when the process is degraded, or
      no stored vector differs from the recorded identity and the live embedder is
      of it; with no repair owed when the update was called it always does, whatever
      searches, passes and captures came in since. */
  lemma FailedBuildExactly(s: State)
    requires Inv(s) && s.proc.Some? && s.proc.value.upd.Owned?
    ensures Safe(FailedBuild(s)) <==>
      s.proc.value.degraded ||
      (Pure(s.db) && s.proc.value.embedder == Ready(s.db.ident.model, s.db.ident.dims))
    ensures !s.proc.value.upd.owed ==> Safe(FailedBuild(s))
  {
    FailedBuildLeaves(s);
    hide HasVectors, FailedBuild;
    assert Pure(FailedBuild(s).db) <==> Pure(s.db);
  }

  lemma FailedBuildLeaves(s: State)
    requires s.proc.Some? && s.proc.value.upd.Owned?
    ensures FailedBuild(s) == State(s.db.(repair := false, reembedding := false, pid := None),
                                    Some(s.proc.value.(upd := Idle)))
  {
    hide Boot, StoreRow, Heal, AllCurrent, Needs, TryRecover, AfterPass, Encode;
  }

  // ----- A model of another width -----

  predicate InProgress(u: Updater) {
    u.Built? || InWindow(u) || u.Verified? || u.Failing?
  }

  /** Rows are to be re-encoded, a repair is owed, and no embedder at hand or built
      by a restart can encode. */
  ghost predicate Wide(s: State) {
    s.db.repair && Unfinished(s.db) && !Encodes(s.db, Ready(s.db.ident.model, s.db.cfgDims)) &&
    (s.proc.Some? ==>
      var p := s.proc.value;
      && !InProgress(p.upd) && !p.sweep.Settled?
      && (p.upd.Flagged? || p.upd.Owned? ==> p.upd.owed)
      && p.backend == p.embedder && !Encodes(s.db, p.embedder)
      && (Reencoding(p.upd) ==> p.upd.emb == p.embedder && p.embedder.Ready?)
      && (p.embedder.Disabled? ==> !Encodes(s.db, Ready(p.cfg.model, p.cfg.dims))))
  }

  lemma WideBoot(s: State, me: Pid, loads: bool)
    requires Wide(s) && s.proc.None?
    ensures Wide(Boot(s.db, me, loads))
  {
    hide VectorPath;
    TextStays(s.db, Boot(s.db, me, loads).db);
  }

  lemma WideHeal(s: State, t: nat)
    requires Wide(s) && s.proc.Some? && t in s.proc.value.healers
    ensures Wide(Heal(s.db, s.proc.value, t))
  {
    var h := Heal(s.db, s.proc.value, t);
    WideMarked(s, h.db.reembedding, h.db.pid, h.db.repair, h.proc.value.healers);
  }

  lemma WideMarked(s: State, flag: bool, pid: Option<Pid>, repair: bool, healers: map<nat, Healer>)
    requires Wide(s) && s.proc.Some? && (s.db.repair ==> repair)
    ensures Wide(State(s.db.(reembedding := flag, pid := pid, repair := repair),
                       Some(s.proc.value.(healers := healers))))
  {
    hide HasVectors, HasText;
    TextStays(s.db, s.db.(reembedding := flag, pid := pid, repair := repair));
  }

  lemma WideStore(s: State, id: nat, text: string, deferred: bool)
    requires Wide(s) && s.proc.Some? && id !in s.db.rows
    ensures Wide(StoreRow(s.db, s.proc.value, id, text, deferred))
  {
    hide HasVectors;
    TextStays(s.db, StoreRow(s.db, s.proc.value, id, text, deferred).db);
  }

  lemma WideRecover(s: State, loads: bool)
    requires Wide(s) && s.proc.Some?
    ensures Wide(State(s.db, Some(TryRecover(s.proc.value, loads))))
  {
    hide HasVectors;
  }

  lemma WideSweep(s: State, w: Sweeper)
    requires Wide(s) && s.proc.Some? && !w.Settled?
    ensures Wide(State(s.db, Some(s.proc.value.(sweep := w))))
  {
    hide HasVectors;
  }

  lemma WideStart(s: State)
    requires Wide(s) && s.proc.Some? && s.proc.value.upd.Idle?
    ensures Wide(State(s.db.(reembedding := true), Some(s.proc.value.(upd := Flagged(s.db.repair)))))
  {
    hide HasVectors;
    TextStays(s.db, s.db.(reembedding := true));
  }

  lemma WideAdvance(s: State)
    requires Wide(s) && s.proc.Some?
    requires s.proc.value.upd.Flagged? || s.proc.value.upd.Closing? || s.proc.value.upd.Disowning?
    ensures Wide(Advance(s.db, s.proc.value))
  {
    hide HasVectors;
    TextStays(s.db, Advance(s.db, s.proc.value).db);
  }

  /** What a step may not be, with rows to do, a repair owed and nothing that encodes. */
  lemma WideRulesOut(s: State, e: Step)
    requires Inv(s) && Wide(s) && Enabled(s, e) && Assumed(s, e, Strict)
    ensures !e.SweepRow? && !e.UpdateRow? && !e.SweepEnd? && !e.SweepClear?
    ensures e.UpdateThrow? ==> Reencoding(s.proc.value.upd)
    ensures e.UpdateNext? ==>
      s.proc.value.upd.Flagged? || s.proc.value.upd.Closing? || s.proc.value.upd.Disowning?
  {
    hide HasVectors, HasText, Unwrapped;
    assert !AllCurrent(s.db);
  }

  /** Captures, passes, failed updates, crashes and restarts leave it so; only an
      update that builds another embedder can end it. */
  lemma WideStays(s: State, e: Step)
    requires Inv(s) && Wide(s) && Enabled(s, e) && Assumed(s, e, Strict) && !e.UpdateBuild?
    ensures Wide(Apply(s, e)) && !VectorPath(Apply(s, e))
  {
    WideRulesOut(s, e);
    WideApply(s, e);
    WideTextOnly(Apply(s, e));
  }

  lemma WideApply(s: State, e: Step)
    requires Wide(s) && Enabled(s, e) && !e.UpdateBuild?
    requires !e.SweepRow? && !e.UpdateRow? && !e.SweepEnd? && !e.SweepClear?
    requires e.UpdateThrow? ==> Reencoding(s.proc.value.upd)
    requires e.UpdateNext? ==>
      s.proc.value.upd.Flagged? || s.proc.value.upd.Closing? || s.proc.value.upd.Disowning?
    ensures Wide(Apply(s, e))
  {
    hide Wide, Boot, StoreRow, Heal, Advance, TryRecover, AllCurrent, Needs;
    match e
    case Crash => WideCrash(s);
    case Start(me, loads) => WideBoot(s, me, loads);
    case Store(id, text, deferred) => WideStore(s, id, text, deferred);
    case HealBegin(t, _) => WideHealBegin(s, t);
    case HealWrite(t) => WideHeal(s, t);
    case Recover(loads) => WideRecover(s, loads);
    case SweepBegin(resume) => WideSweep(s, Sweeping(resume, s.proc.value.embedder, 0, 0));
    case SweepThrow => WideSweep(s, Rest);
    case UpdateStart => WideStart(s);
    case UpdateThrow => WideThrow(s);
    case UpdateNext => WideAdvance(s);
  }

  lemma WideCrash(s: State)
    requires Wide(s)
    ensures Wide(s.(proc := None))
  {
    hide HasVectors;
  }

  lemma WideHealBegin(s: State, t: nat)
    requires Wide(s) && s.proc.Some?
    ensures Wide(State(s.db, Some(s.proc.value.(healers := s.proc.value.healers[t := FlagNext]))))
  {
    hide HasVectors;
  }

  lemma WideThrow(s: State)
    requires Wide(s) && s.proc.Some? && Reencoding(s.proc.value.upd)
    ensures Wide(State(s.db, Some(s.proc.value.(upd := Closing))))
  {
    hide HasVectors;
  }

  /** So search stays on text until a model is staged again. */
  lemma {:induction false} WideStaysTextOnly(states: seq<State>, steps: seq<Step>, i: nat, j: nat)
    requires |states| > 0 && Init(states[0]) && AssumedRun(states, steps) && i <= j < |states|
    requires Wide(states[i]) && forall k | i <= k < j :: !steps[k].UpdateBuild?
    ensures Wide(states[j]) && !VectorPath(states[j])
    decreases j
  {
    hide Inv, Enabled, Apply, Assumed, Wide;
    if i < j {
      WideStaysTextOnly(states, steps, i, j - 1);
      RunInv(states, steps, j - 1);
      WideStays(states[j - 1], steps[j - 1]);
    } else {
      WideTextOnly(states[i]);
    }
  }

  lemma WideTextOnly(s: State)
    requires Wide(s)
    ensures !VectorPath(s)
  {
  }
}
