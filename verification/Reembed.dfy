/** The re-embed protocol as a transition system.

    One step is one write: a settings row, a stored vector or a field of the
    live process. A crash may fall between any two steps. `Enabled` is what the
    code allows; `Assumed` is what the protocol needs of its surroundings.
 */
module Reembed {
  import opened Wrappers

  type Pid = nat

  /** What a vector was made with: model, storage type and width. */
  datatype Ident = Ident(model: string, vtype: string, dims: int)

  /** A stored vector with the value of its embedding_version column. */
  datatype Vec = Vec(made: Ident, stamp: nat)

  datatype Row = Row(text: string, vec: Option<Vec>)

  datatype Embedder = Disabled | Ready(model: string, dims: int)

  /** What survives a crash. `cfgVtype` and `cfgDims` are the configuration rows
      embedding_vector_type and embedding_dimensions, which the protocol never
      writes; the configured model shares its row with the recorded model.
      `widths` are the models on disk with the width each one produces. */
  datatype Db = Db(
    reembedding: bool,
    pid: Option<Pid>,
    repair: bool,
    ident: Ident,
    version: nat,
    rows: map<nat, Row>,
    cfgVtype: string,
    cfgDims: int,
    widths: map<string, int>)

  /** Where update_embeddings stands. `to` is the desired identity, `owed` whether
      a repair was owed on entry. */
  datatype Updater =
    | Idle
    | Flagged(owed: bool)
    | Owned(owed: bool)
    | Built(to: Ident, emb: Embedder)
    | Bumped(to: Ident, emb: Embedder)
    | Marked(to: Ident, emb: Embedder)
    | Modeled(to: Ident, emb: Embedder)
    | Typed(to: Ident, emb: Embedder)
    | Sized(to: Ident, emb: Embedder)
    | Configured(to: Ident, emb: Embedder)
    | Retyped(to: Ident, emb: Embedder)
    | Swapped(to: Ident, emb: Embedder)
    | Promoted(emb: Embedder)
    | Verifying(emb: Embedder)
    | Verified | Failing | Closing | Disowning

  /** A housekeeping pass: the resume of an interrupted run, or a plain backfill. */
  datatype Sweeper = Rest | Sweeping(resume: bool, emb: Embedder, pass: nat, count: nat) | Settled

  /** A thread inside is_reembedding that has judged the flag stale. */
  datatype Healer = FlagNext | PidNext | MarkNext

  datatype Proc = Proc(
    me: Pid,
    cfg: Ident,
    embedder: Embedder,
    backend: Embedder,
    backendVtype: string,
    degraded: bool,
    upd: Updater,
    sweep: Sweeper,
    healers: map<nat, Healer>)

  datatype State = State(db: Db, proc: Option<Proc>)

  const MAX_PASSES := 5

  /** The version byte cycles through 1..255. */
  function NextVersion(v: nat): (r: nat)
  {
    if v + 1 > 255 then 1 else v + 1
  }

  predicate Embeddable(r: Row) {
    r.text != ""
  }

  /** The rows a backfill picks: no vector, or one with an old version byte. */
  predicate Needs(db: Db, id: nat) {
    id in db.rows && Embeddable(db.rows[id]) &&
    (db.rows[id].vec.None? || db.rows[id].vec.value.stamp != db.version)
  }

  predicate AllCurrent(db: Db) {
    forall id <- db.rows :: !Needs(db, id)
  }

  predicate HasVectors(db: Db) {
    exists id <- db.rows :: db.rows[id].vec.Some?
  }

  /** An embedder built for another width than its model's throws for every text. */
  predicate Encodes(db: Db, emb: Embedder) {
    emb.Ready? && emb.model in db.widths && db.widths[emb.model] == emb.dims
  }

  predicate HasText(db: Db) {
    exists id <- db.rows :: Embeddable(db.rows[id])
  }

  function Encode(db: Db, emb: Embedder, vtype: string, id: nat): Db
    requires id in db.rows && emb.Ready?
  {
    db.(rows := db.rows[id := db.rows[id].(vec := Some(Vec(Ident(emb.model, vtype, emb.dims), db.version)))])
  }

  /** A restart reads a configuration that disagrees with the recorded identity. */
  predicate Drift(db: Db) {
    db.ident.vtype != db.cfgVtype || db.ident.dims != db.cfgDims
  }

  datatype Step =
    | Crash
    | Start(me: Pid, loads: bool)
    | Store(id: nat, text: string, deferred: bool)
    | HealBegin(t: nat, ownerAlive: bool)
    | HealWrite(t: nat)
    | Recover(loads: bool)
    | SweepBegin(resume: bool)
    | SweepRow(id: nat)
    | SweepThrow
    | SweepEnd
    | SweepClear
    | UpdateStart
    | UpdateBuild(to: Ident)
    | UpdateThrow
    | UpdateRow(id: nat)
    | UpdateNext

  /** The stages between the version bump and the backend swap. */
  predicate InWindow(u: Updater) {
    u.Bumped? || u.Marked? || u.Modeled? || u.Typed? || u.Sized? ||
    u.Configured? || u.Retyped? || u.Swapped?
  }

  predicate Reencoding(u: Updater) {
    u.Promoted? || u.Verifying?
  }

  predicate Enabled(s: State, e: Step) {
    match e
    case Crash => s.proc.Some?
    case Start(_, _) => s.proc.None?
    case _ => s.proc.Some? && EnabledLive(s.db, s.proc.value, e)
  }

  predicate EnabledLive(db: Db, p: Proc, e: Step) {
    match e
    case Crash => true
    case Start(_, _) => false
    case Store(id, _, _) => id !in db.rows
    case HealBegin(t, ownerAlive) =>
      t !in p.healers && db.reembedding &&
      !(db.pid.Some? && db.pid.value > 0 && (db.pid.value == p.me || ownerAlive))
    case HealWrite(t) => t in p.healers
    case Recover(_) => p.degraded && p.cfg == db.ident
    // A resume has read the mark and the flag before; either may have changed since.
    case SweepBegin(_) => p.sweep.Rest?
    case SweepRow(id) => p.sweep.Sweeping? && Encodes(db, p.sweep.emb) && Needs(db, id)
    case SweepThrow => p.sweep.Sweeping?
    case SweepEnd => p.sweep.Sweeping? && (p.sweep.emb.Disabled? || AllCurrent(db))
    case SweepClear => p.sweep.Settled?
    case UpdateStart => p.upd.Idle?
    case UpdateBuild(_) => p.upd.Owned?
    case UpdateThrow => p.upd.Owned? || p.upd.Built? || p.upd.Bumped? || p.upd.Marked? ||
                        p.upd.Modeled? || p.upd.Typed? || p.upd.Sized? || Reencoding(p.upd)
    case UpdateRow(id) => Reencoding(p.upd) && Encodes(db, p.upd.emb) && id in db.rows && Embeddable(db.rows[id]) &&
                          (p.upd.Verifying? ==> Needs(db, id))
    case UpdateNext => !p.upd.Idle? && !p.upd.Owned? && (Reencoding(p.upd) ==> AllCurrent(db))
  }

  function Apply(s: State, e: Step): State
    requires Enabled(s, e)
  {
    match e
    case Crash => s.(proc := None)
    case Start(me, loads) => Boot(s.db, me, loads)
    case Store(id, text, deferred) => StoreRow(s.db, s.proc.value, id, text, deferred)
    case HealBegin(t, _) => State(s.db, Some(s.proc.value.(healers := s.proc.value.healers[t := FlagNext])))
    case HealWrite(t) => Heal(s.db, s.proc.value, t)
    case Recover(loads) => State(s.db, Some(TryRecover(s.proc.value, loads)))
    case SweepBegin(resume) =>
      State(s.db, Some(s.proc.value.(sweep := Sweeping(resume, s.proc.value.embedder, 0, 0))))
    case SweepRow(id) =>
      var p := s.proc.value;
      State(Encode(s.db, p.sweep.emb, p.backendVtype, id), Some(p.(sweep := p.sweep.(count := p.sweep.count + 1))))
    case SweepThrow => State(s.db, Some(s.proc.value.(sweep := Rest)))
    case SweepEnd => State(s.db, Some(s.proc.value.(sweep := AfterPass(s.proc.value.sweep))))
    case SweepClear => State(s.db.(repair := false), Some(s.proc.value.(sweep := Rest)))
    case UpdateStart => State(s.db.(reembedding := true), Some(s.proc.value.(upd := Flagged(s.db.repair))))
    case UpdateBuild(to) =>
      State(s.db, Some(s.proc.value.(upd := Built(to, Ready(to.model, s.proc.value.cfg.dims)))))
    case UpdateThrow =>
      State(s.db, Some(s.proc.value.(upd := if Reencoding(s.proc.value.upd) then Closing else Failing)))
    case UpdateRow(id) =>
      State(Encode(s.db, s.proc.value.upd.emb, s.proc.value.backendVtype, id), s.proc)
    case UpdateNext => Advance(s.db, s.proc.value)
  }

  /** The constructor: load the configured model, then the drift guard. */
  function Boot(db: Db, me: Pid, loads: bool): State {
    var cfg := Ident(db.ident.model, db.cfgVtype, db.cfgDims);
    var emb := if loads then Ready(cfg.model, cfg.dims) else Disabled;
    var db' := if HasVectors(db) then db else db.(ident := cfg);
    State(db', Some(Proc(me, cfg, emb, emb, cfg.vtype, !loads || (Drift(db) && HasVectors(db)), Idle, Rest, map[])))
  }

  /** A capture or an import. A disabled embedder leaves the vector NULL, and one
      that throws stores no vector either. */
  function StoreRow(db: Db, p: Proc, id: nat, text: string, deferred: bool): State {
    var vec := if text == "" || deferred || !Encodes(db, p.backend) then None
               else Some(Vec(Ident(p.backend.model, p.backendVtype, p.backend.dims), db.version));
    State(db.(rows := db.rows[id := Row(text, vec)]), Some(p))
  }

  /** The three writes of the self-heal, one at a time. */
  function Heal(db: Db, p: Proc, t: nat): State
    requires t in p.healers
  {
    match p.healers[t]
    case FlagNext => State(db.(reembedding := false), Some(p.(healers := p.healers[t := PidNext])))
    case PidNext => State(db.(pid := None), Some(p.(healers := p.healers[t := MarkNext])))
    case MarkNext => State(db.(repair := true), Some(p.(healers := p.healers - {t})))
  }

  function TryRecover(p: Proc, loads: bool): Proc {
    if p.embedder.Ready? then p.(degraded := false)
    else if loads then
      var emb := Ready(p.cfg.model, p.cfg.dims);
      p.(embedder := emb, backend := emb, degraded := false)
    else p
  }

  /** A pass that changed nothing settles the repair; the fifth busy pass gives up. */
  function AfterPass(w: Sweeper): Sweeper
    requires w.Sweeping?
  {
    if !w.resume then Rest
    else if w.count == 0 then Settled
    else if w.pass + 1 < MAX_PASSES then w.(pass := w.pass + 1, count := 0)
    else Rest
  }

  /** The next write of update_embeddings. */
  function Advance(db: Db, p: Proc): State
    requires !p.upd.Idle? && !p.upd.Owned?
  {
    match p.upd
    case Flagged(owed) => State(db.(pid := Some(p.me)), Some(p.(upd := Owned(owed))))
    case Built(to, emb) => State(db.(version := NextVersion(db.version)), Some(p.(upd := Bumped(to, emb))))
    case Bumped(to, emb) => State(db.(repair := true), Some(p.(upd := Marked(to, emb))))
    case Marked(to, emb) => State(db.(ident := db.ident.(model := to.model)), Some(p.(upd := Modeled(to, emb))))
    case Modeled(to, emb) => State(db.(ident := db.ident.(vtype := to.vtype)), Some(p.(upd := Typed(to, emb))))
    case Typed(to, emb) => State(db.(ident := db.ident.(dims := to.dims)), Some(p.(upd := Sized(to, emb))))
    case Sized(to, emb) => State(db, Some(p.(cfg := to, upd := Configured(to, emb))))
    case Configured(to, emb) => State(db, Some(p.(backendVtype := to.vtype, upd := Retyped(to, emb))))
    case Retyped(to, emb) => State(db, Some(p.(embedder := emb, upd := Swapped(to, emb))))
    case Swapped(to, emb) => State(db, Some(p.(backend := p.embedder, upd := Promoted(emb))))
    case Promoted(emb) => State(db, Some(p.(upd := Verifying(emb))))
    case Verifying(emb) => State(db, Some(p.(upd := Verified)))
    case Verified => State(db.(repair := false), Some(p.(upd := Closing)))
    case Failing => State(db.(repair := false), Some(p.(upd := Closing)))
    case Closing => State(db.(reembedding := false), Some(p.(upd := Disowning)))
    case Disowning => State(db.(pid := None), Some(p.(upd := Idle)))
  }

  // ----- What is promised -----

  /** `search` goes to the vector index. A stale flag is healed first, which
      marks the repair, so a raised flag never lets a vector query through. */
  predicate VectorPath(s: State) {
    s.proc.Some? && !s.db.reembedding && !s.db.repair && !s.proc.value.degraded && s.proc.value.embedder.Ready?
  }

  ghost predicate Pure(db: Db) {
    forall id <- db.rows :: db.rows[id].vec.Some? ==> db.rows[id].vec.value.made == db.ident
  }

  ghost predicate LiveIsRecorded(db: Db, p: Proc) {
    p.embedder == Ready(db.ident.model, db.ident.dims) && p.backend == p.embedder && p.backendVtype == db.ident.vtype
  }

  ghost predicate Safe(s: State) {
    VectorPath(s) ==> Pure(s.db) && LiveIsRecorded(s.db, s.proc.value)
  }

  ghost predicate Init(s: State) {
    s.proc.None? && !s.db.repair && Pure(s.db) && TextlessNull(s.db)
  }

  ghost predicate Run(states: seq<State>, steps: seq<Step>) {
    |states| == |steps| + 1 &&
    forall i | 0 <= i < |steps| :: Enabled(states[i], steps[i]) && states[i + 1] == Apply(states[i], steps[i])
  }

  /** The version byte about to be used is on no stored vector. */
  predicate Unwrapped(db: Db) {
    forall id <- db.rows :: db.rows[id].vec.Some? ==> db.rows[id].vec.value.stamp != NextVersion(db.version)
  }

  /** The assumption a run may drop: none, one of them, or all. */
  datatype Slip = Strict | WriterInWindow | Overlap | OtherWidth | Wrapped | UnownedThrow | Any

  /** What the surroundings owe the protocol, but for what `slip` drops. */
  predicate Assumed(s: State, e: Step, slip: Slip) {
    s.proc.Some? && !slip.Any? ==>
      var p := s.proc.value;
      match e
      // No other writer stamps rows between the version bump and the backend swap.
      case Store(_, _, _) => !InWindow(p.upd) || slip.WriterInWindow?
      // No housekeeping pass runs in that window; a degraded process skips them.
      case SweepBegin(_) => (!InWindow(p.upd) || slip.Overlap?) && !p.degraded
      case Recover(_) => !InWindow(p.upd) || slip.Overlap?
      // The staged width is the one the embedder is built for, unless the
      // embedder throws for every text and there is a text.
      case UpdateBuild(to) =>
        to.dims == p.cfg.dims || slip.OtherWidth? || (!Encodes(s.db, Ready(to.model, p.cfg.dims)) && HasText(s.db))
      // The version byte has not come round to one some row still carries.
      case UpdateNext => p.upd.Built? ==> (Unwrapped(s.db) || slip.Wrapped?) && (p.sweep.Rest? || slip.Overlap?)
      // A build fails only with no repair owed on entry; later throws come from re-encoding.
      case UpdateThrow => Reencoding(p.upd) || (p.upd.Owned? && (!p.upd.owed || slip.UnownedThrow?))
      case _ => true
  }

  ghost predicate AssumedRun(states: seq<State>, steps: seq<Step>) {
    Run(states, steps) && forall i | 0 <= i < |steps| :: Assumed(states[i], steps[i], Strict)
  }

  // ----- The invariant -----

  ghost predicate TextlessNull(db: Db) {
    forall id <- db.rows :: db.rows[id].text == "" ==> db.rows[id].vec.None?
  }

  /** Every vector with the current version byte has the recorded identity. */
  ghost predicate CurrentPure(db: Db) {
    forall id <- db.rows ::
      db.rows[id].vec.Some? && db.rows[id].vec.value.stamp == db.version ==> db.rows[id].vec.value.made == db.ident
  }

  /** No stale vector is left. */
  ghost predicate Fresh(db: Db) {
    forall id <- db.rows :: db.rows[id].vec.Some? ==> db.rows[id].vec.value.stamp == db.version
  }

  ghost predicate NoneCurrent(db: Db) {
    forall id <- db.rows :: db.rows[id].vec.Some? ==> db.rows[id].vec.value.stamp != db.version
  }

  /** With no repair owed all vectors are of the recorded identity; with one
      owed, those a resume will not touch are. */
  ghost predicate RowsMatch(db: Db) {
    if db.repair then CurrentPure(db) else Pure(db)
  }

  /** Live configuration, embedder and backend agree; they agree with the
      recorded identity unless the process came up drifted. */
  ghost predicate Steady(db: Db, p: Proc) {
    && p.backend == p.embedder
    && p.backendVtype == p.cfg.vtype
    && (p.embedder.Ready? ==> p.embedder == Ready(p.cfg.model, p.cfg.dims))
    && (p.embedder.Disabled? ==> p.degraded)
    && (!p.degraded ==> p.cfg == db.ident)
    && (p.cfg == db.ident || Drift(db))
    && (p.cfg == db.ident ==> RowsMatch(db))
  }

  /** Some row is still to be re-encoded. */
  ghost predicate Unfinished(db: Db) {
    exists id <- db.rows :: Needs(db, id)
  }

  /** A model promoted at a width it does not produce: nothing can be encoded, so
      the repair stays owed. */
  ghost predicate Mute(db: Db, p: Proc) {
    && p.embedder.Ready? && p.backend == p.embedder && p.backendVtype == p.cfg.vtype
    && !Encodes(db, p.embedder)
    && p.cfg == db.ident
    && db.repair && RowsMatch(db) && Unfinished(db)
  }

  /** The embedder to be promoted is of the staged identity, or can encode nothing. */
  ghost predicate TargetOk(db: Db, p: Proc) {
    p.upd.Built? || InWindow(p.upd) ==>
      p.upd.emb == Ready(p.upd.to.model, p.upd.to.dims) ||
      (p.upd.emb.Ready? && !Encodes(db, p.upd.emb) && HasText(db))
  }

  predicate Renaming(u: Updater) {
    InWindow(u) && !u.Bumped? && !u.Marked?
  }

  ghost predicate InPromotion(db: Db, p: Proc)
    requires Renaming(p.upd)
  {
    && NoneCurrent(db)
    && db.repair
    && db.ident.model == p.upd.to.model
    && (!p.upd.Modeled? ==> db.ident.vtype == p.upd.to.vtype)
    && (!p.upd.Modeled? && !p.upd.Typed? ==> db.ident == p.upd.to)
    && (p.upd.Configured? || p.upd.Retyped? || p.upd.Swapped? ==> p.cfg == p.upd.to)
    && (p.upd.Retyped? || p.upd.Swapped? ==> p.backendVtype == p.upd.to.vtype)
    && (p.upd.Swapped? ==> p.embedder == p.upd.emb)
  }

  ghost predicate LiveInv(db: Db, p: Proc) {
    && TargetOk(db, p)
    && (InWindow(p.upd) ==> p.sweep.Rest?)
    && (if Renaming(p.upd) then InPromotion(db, p) else Steady(db, p) || Mute(db, p))
    && ((p.upd.Flagged? || p.upd.Owned?) && !p.upd.owed ==>
          Steady(db, p) && (Pure(db) || (p.cfg != db.ident && Drift(db))))
    && (p.upd.Bumped? || p.upd.Marked? ==> NoneCurrent(db))
    && (p.upd.Marked? ==> db.repair)
    && (Reencoding(p.upd) ==> p.upd.emb == p.embedder && p.embedder.Ready? && p.cfg == db.ident)
    && (p.upd.Verified? ==> Steady(db, p) && p.cfg == db.ident && Pure(db) && Fresh(db))
    && (p.upd.Failing? ==> Steady(db, p) && (Pure(db) || (p.cfg != db.ident && Drift(db))))
    && (p.sweep.Sweeping? ==> !p.degraded && p.sweep.emb == p.embedder)
    && (p.sweep.Settled? ==> !p.degraded && Steady(db, p) && Pure(db) && Fresh(db))
  }

  ghost predicate Inv(s: State) {
    && TextlessNull(s.db)
    && (RowsMatch(s.db) || Drift(s.db))
    && (s.proc.Some? ==> LiveInv(s.db, s.proc.value))
  }

  lemma BootInv(s: State, me: Pid, loads: bool)
    requires Inv(s) && s.proc.None?
    ensures Inv(Boot(s.db, me, loads))
  {
    hide VectorPath;
  }

  lemma StoreInv(s: State, id: nat, text: string, deferred: bool)
    requires Inv(s) && s.proc.Some? && id !in s.db.rows && !InWindow(s.proc.value.upd)
    ensures Inv(StoreRow(s.db, s.proc.value, id, text, deferred))
  {
    hide HasVectors;
    TextStays(s.db, StoreRow(s.db, s.proc.value, id, text, deferred).db);
  }

  /** Rows that keep their text, and with it their vector, stay to be embedded. */
  lemma TextStays(db: Db, db': Db)
    requires forall i <- db.rows :: i in db'.rows && db'.rows[i].text == db.rows[i].text
    ensures HasText(db) ==> HasText(db')
    ensures Unfinished(db) && db'.version == db.version && (forall i <- db.rows :: db'.rows[i] == db.rows[i]) ==>
      Unfinished(db')
  {
    if HasText(db) {
      var i :| i in db.rows && Embeddable(db.rows[i]);
      assert i in db'.rows && Embeddable(db'.rows[i]);
    }
    if Unfinished(db) && db'.version == db.version && (forall i <- db.rows :: db'.rows[i] == db.rows[i]) {
      var i :| i in db.rows && Needs(db, i);
      assert i in db'.rows && Needs(db', i);
    }
  }

  lemma HealInv(s: State, t: nat)
    requires Inv(s) && s.proc.Some? && t in s.proc.value.healers
    ensures Inv(Heal(s.db, s.proc.value, t))
  {
    hide HasVectors;
    var s' := Heal(s.db, s.proc.value, t);
    assert s'.db == s.db.(reembedding := s'.db.reembedding, pid := s'.db.pid, repair := s'.db.repair);
    assert s'.proc.value == s.proc.value.(healers := s'.proc.value.healers);
    RepairMarkInv(s, s'.db.reembedding, s'.db.pid, s'.db.repair, s'.proc.value.healers);
  }

  /** Raising the repair mark, or touching the flag and its owner, is always safe. */
  lemma RepairMarkInv(s: State, flag: bool, pid: Option<Pid>, repair: bool, healers: map<nat, Healer>)
    requires Inv(s) && s.proc.Some? && (s.db.repair ==> repair)
    ensures Inv(State(s.db.(reembedding := flag, pid := pid, repair := repair),
                      Some(s.proc.value.(healers := healers))))
  {
    hide HasVectors;
  }

  lemma SweepBeginInv(s: State, resume: bool)
    requires Inv(s) && s.proc.Some? && !InWindow(s.proc.value.upd) && !s.proc.value.degraded
    ensures Inv(State(s.db, Some(s.proc.value.(sweep := Sweeping(resume, s.proc.value.embedder, 0, 0)))))
  {
    hide HasVectors;
  }

  lemma SweepRowInv(s: State, id: nat, w: Sweeper)
    requires Inv(s) && s.proc.Some? && s.proc.value.sweep.Sweeping? && w.Sweeping? && w.emb == s.proc.value.sweep.emb
    requires Encodes(s.db, w.emb) && Needs(s.db, id)
    ensures Inv(State(Encode(s.db, w.emb, s.proc.value.backendVtype, id), Some(s.proc.value.(sweep := w))))
  {
    hide HasVectors;
    TextStays(s.db, Encode(s.db, w.emb, s.proc.value.backendVtype, id));
  }

  lemma SweepEndInv(s: State)
    requires Inv(s) && s.proc.Some? && s.proc.value.sweep.Sweeping?
    requires s.proc.value.sweep.emb.Disabled? || AllCurrent(s.db)
    ensures Inv(State(s.db, Some(s.proc.value.(sweep := AfterPass(s.proc.value.sweep)))))
  {
    hide HasVectors;
    if s.proc.value.sweep.emb.Ready? {
      AllCurrentPure(s.db);
    }
  }

  /** A pass that throws or is settled comes to rest. */
  lemma SweepRestInv(s: State, repair: bool)
    requires Inv(s) && s.proc.Some? && !s.proc.value.sweep.Rest?
    requires repair == s.db.repair || (!repair && s.proc.value.sweep.Settled?)
    ensures Inv(State(s.db.(repair := repair), Some(s.proc.value.(sweep := Rest))))
  {
    hide HasVectors;
  }

  lemma RecoverInv(s: State, loads: bool)
    requires Inv(s) && s.proc.Some? && s.proc.value.degraded && s.proc.value.cfg == s.db.ident &&
      !InWindow(s.proc.value.upd)
    ensures Inv(State(s.db, Some(TryRecover(s.proc.value, loads))))
  {
    hide HasVectors;
  }

  lemma UpdateStartInv(s: State)
    requires Inv(s) && s.proc.Some? && s.proc.value.upd.Idle?
    ensures Inv(State(s.db.(reembedding := true), Some(s.proc.value.(upd := Flagged(s.db.repair)))))
  {
    hide HasVectors;
  }

  lemma UpdateBuildInv(s: State, to: Ident)
    requires Inv(s) && s.proc.Some? && s.proc.value.upd.Owned?
    requires to.dims == s.proc.value.cfg.dims ||
             (!Encodes(s.db, Ready(to.model, s.proc.value.cfg.dims)) && HasText(s.db))
    ensures Inv(State(s.db, Some(s.proc.value.(upd := Built(to, Ready(to.model, s.proc.value.cfg.dims))))))
  {
    hide HasVectors;
  }

  lemma UpdateThrowInv(s: State)
    requires Inv(s) && s.proc.Some?
    requires Reencoding(s.proc.value.upd) || (s.proc.value.upd.Owned? && !s.proc.value.upd.owed)
    ensures Inv(State(s.db, Some(s.proc.value.(upd := if Reencoding(s.proc.value.upd) then Closing else Failing))))
  {
    hide HasVectors;
  }

  lemma UpdateRowInv(s: State, id: nat)
    requires Inv(s) && s.proc.Some? && Reencoding(s.proc.value.upd) && Encodes(s.db, s.proc.value.upd.emb)
    requires id in s.db.rows && Embeddable(s.db.rows[id])
    ensures Inv(State(Encode(s.db, s.proc.value.upd.emb, s.proc.value.backendVtype, id), s.proc))
  {
    hide HasVectors;
  }

  lemma OpeningInv(s: State)
    requires Inv(s) && s.proc.Some? && (s.proc.value.upd.Built? ==> Unwrapped(s.db) && s.proc.value.sweep.Rest?)
    requires s.proc.value.upd.Flagged? || s.proc.value.upd.Built? || s.proc.value.upd.Bumped?
    ensures Inv(Advance(s.db, s.proc.value))
  {
    hide HasVectors;
  }

  lemma RenamingInv(s: State)
    requires Inv(s) && s.proc.Some?
    requires s.proc.value.upd.Marked? || s.proc.value.upd.Modeled? || s.proc.value.upd.Typed?
    ensures Inv(Advance(s.db, s.proc.value))
  {
    hide HasVectors;
  }

  lemma RebindingInv(s: State)
    requires Inv(s) && s.proc.Some?
    requires s.proc.value.upd.Sized? || s.proc.value.upd.Configured? || s.proc.value.upd.Retyped? ||
      s.proc.value.upd.Swapped?
    ensures Inv(Advance(s.db, s.proc.value))
  {
    hide HasVectors;
  }

  /** Nothing left to re-encode: every vector is then of the recorded identity. */
  lemma AllCurrentPure(db: Db)
    requires AllCurrent(db) && TextlessNull(db) && RowsMatch(db)
    ensures Pure(db) && Fresh(db)
  {
    forall id <- db.rows | db.rows[id].vec.Some?
      ensures db.rows[id].vec.value.made == db.ident && db.rows[id].vec.value.stamp == db.version
    {
      assert !Needs(db, id);
    }
  }

  lemma VerifyingInv(s: State)
    requires Inv(s) && s.proc.Some? && Reencoding(s.proc.value.upd) && AllCurrent(s.db)
    ensures Inv(Advance(s.db, s.proc.value))
  {
    hide HasVectors;
    AllCurrentPure(s.db);
  }

  lemma ClosingInv(s: State)
    requires Inv(s) && s.proc.Some? && (s.proc.value.upd.Verified? || s.proc.value.upd.Failing?)
    ensures Inv(Advance(s.db, s.proc.value))
  {
    hide HasVectors;
  }

  lemma DisowningInv(s: State)
    requires Inv(s) && s.proc.Some? && (s.proc.value.upd.Closing? || s.proc.value.upd.Disowning?)
    ensures Inv(Advance(s.db, s.proc.value))
  {
    hide HasVectors;
  }

  /** The next write of an update. */
  lemma AdvanceInv(s: State)
    requires Inv(s) && s.proc.Some? && !s.proc.value.upd.Idle? && !s.proc.value.upd.Owned?
    requires Reencoding(s.proc.value.upd) ==> AllCurrent(s.db)
    requires s.proc.value.upd.Built? ==> Unwrapped(s.db) && s.proc.value.sweep.Rest?
    ensures Inv(Advance(s.db, s.proc.value))
  {
    hide Inv, Advance;
    var u := s.proc.value.upd;
    if u.Flagged? || u.Built? || u.Bumped? { OpeningInv(s); }
    else if u.Marked? || u.Modeled? || u.Typed? { RenamingInv(s); }
    else if u.Sized? || u.Configured? || u.Retyped? || u.Swapped? { RebindingInv(s); }
    else if Reencoding(u) { VerifyingInv(s); }
    else if u.Verified? || u.Failing? { ClosingInv(s); }
    else { DisowningInv(s); }
  }

  /** A crash, or a thread that judges the flag stale, changes nothing of the store. */
  lemma CrashInv(s: State)
    requires Inv(s) && s.proc.Some?
    ensures Inv(s.(proc := None))
  {
    hide HasVectors;
  }

  lemma StepInv(s: State, e: Step)
    requires Inv(s) && Enabled(s, e) && Assumed(s, e, Strict)
    ensures Inv(Apply(s, e))
  {
    hide Inv, Boot, StoreRow, Heal, Advance, AfterPass, TryRecover, Encode, AllCurrent, Needs;
    match e
    case Crash => CrashInv(s);
    case Start(me, loads) => BootInv(s, me, loads);
    case Store(id, text, deferred) => StoreInv(s, id, text, deferred);
    case HealBegin(t, _) => HealBeginInv(s, t);
    case HealWrite(t) => HealInv(s, t);
    case Recover(loads) => RecoverInv(s, loads);
    case SweepBegin(resume) => SweepBeginInv(s, resume);
    case SweepRow(id) => SweepRowInv(s, id, s.proc.value.sweep.(count := s.proc.value.sweep.count + 1));
    case SweepThrow => SweepRestInv(s, s.db.repair);
    case SweepEnd => SweepEndInv(s);
    case SweepClear => SweepRestInv(s, false);
    case UpdateStart => UpdateStartInv(s);
    case UpdateBuild(to) => UpdateBuildInv(s, to);
    case UpdateThrow => UpdateThrowInv(s);
    case UpdateRow(id) => UpdateRowInv(s, id);
    case UpdateNext => AdvanceInv(s);
  }

  lemma HealBeginInv(s: State, t: nat)
    requires Inv(s) && s.proc.Some?
    ensures Inv(State(s.db, Some(s.proc.value.(healers := s.proc.value.healers[t := FlagNext]))))
  {
    hide HasVectors;
    RepairMarkInv(s, s.db.reembedding, s.db.pid, s.db.repair, s.proc.value.healers[t := FlagNext]);
    assert s.db == s.db.(reembedding := s.db.reembedding, pid := s.db.pid, repair := s.db.repair);
  }

  lemma InvSafe(s: State)
    requires Inv(s)
    ensures Safe(s)
  {
  }

  lemma {:induction false} RunInv(states: seq<State>, steps: seq<Step>, i: nat)
    requires i < |states| && Init(states[0]) && AssumedRun(states, steps)
    ensures Inv(states[i])
  {
    if i > 0 {
      RunInv(states, steps, i - 1);
      StepInv(states[i - 1], steps[i - 1]);
    }
  }

  /** Crash safety: in every state of every run, if search takes the vector path
      then every stored vector has the recorded identity and the live embedder,
      the backend's embedder and its storage type are of that identity. */
  lemma CrashSafety(states: seq<State>, steps: seq<Step>)
    requires |states| > 0 && Init(states[0]) && AssumedRun(states, steps)
    ensures forall s <- states :: Safe(s)
  {
    forall s <- states ensures Safe(s) {
      var i :| 0 <= i < |states| && states[i] == s;
      RunInv(states, steps, i);
      InvSafe(s);
    }
  }

  /** A cleared repair mark means no stale vector and no vector of another
      identity, unless a failed build clears a mark it does not own. What is then
      left to do is exactly what was captured meanwhile without a vector. */
  lemma RepairClearedWhenConverted(s: State, e: Step)
    requires Inv(s) && Enabled(s, e) && Assumed(s, e, Strict)
    requires s.db.repair && !Apply(s, e).db.repair && !s.proc.value.upd.Failing?
    ensures Pure(s.db) && Fresh(s.db)
    ensures forall id <- s.db.rows :: Needs(s.db, id) <==> Embeddable(s.db.rows[id]) && s.db.rows[id].vec.None?
  {
    hide HasVectors;
  }

  /** After a start at rest, search goes by vector exactly when the model loads and
      there is no vector yet, or the configuration rows name the recorded type and
      width. A re-embed that changed the vector type rewrites only the recorded
      identity, so the next start is text-only. */
  lemma RestartVectorSearch(s: State, me: Pid, loads: bool)
    requires s.proc.None? && !s.db.reembedding && !s.db.repair
    ensures VectorPath(Apply(s, Start(me, loads))) <==>
      loads && ((forall id <- s.db.rows :: s.db.rows[id].vec.None?) ||
                (s.db.ident.vtype == s.db.cfgVtype && s.db.ident.dims == s.db.cfgDims))
  {
  }

  /** Whatever was left behind, a start loads the configured model at the
      configured width, and a store without vectors takes the configured identity
      over; one with vectors keeps its own, and with it everything else. */
  lemma StartRecords(s: State, me: Pid, loads: bool)
    requires s.proc.None?
    ensures var t, cfg := Apply(s, Start(me, loads)), Ident(s.db.ident.model, s.db.cfgVtype, s.db.cfgDims);
      && t.proc.Some? && t.proc.value.cfg == cfg && t.proc.value.backendVtype == cfg.vtype
      && t.proc.value.embedder == t.proc.value.backend == (if loads then Ready(cfg.model, cfg.dims) else Disabled)
      && t.db == s.db.(ident := t.db.ident)
      && ((forall id <- s.db.rows :: s.db.rows[id].vec.None?) ==> t.db.ident == cfg)
      && ((exists id <- s.db.rows :: s.db.rows[id].vec.Some?) ==> t.db.ident == s.db.ident)
  {
  }

  /** What the surroundings may do at any moment: crash, store a new row, throw in a pass,
      start an update when none runs, begin a pass when none runs, judge a flag stale
      whose owner is not alive, recover a degraded process of the recorded identity. */
  lemma SurroundingsFree(s: State, id: nat, text: string, deferred: bool, t: nat, ownerAlive: bool, loads: bool,
                         resume: bool)
    requires s.proc.Some?
    ensures var p := s.proc.value;
      && Enabled(s, Crash) && Enabled(s.(proc := None), Start(p.me, loads))
      && (id !in s.db.rows ==> Enabled(s, Store(id, text, deferred)))
      && (p.sweep.Sweeping? ==> Enabled(s, SweepThrow)) && (p.sweep.Rest? ==> Enabled(s, SweepBegin(resume)))
      && (p.upd.Idle? ==> Enabled(s, UpdateStart)) && (p.degraded && p.cfg == s.db.ident ==> Enabled(s, Recover(loads)))
      && (p.upd.Owned? || p.upd.Promoted? || p.upd.Verifying? ==> Enabled(s, UpdateThrow))
      && (t in p.healers ==> Enabled(s, HealWrite(t)))
      && (t !in p.healers && s.db.reembedding &&
          (s.db.pid == None || s.db.pid == Some(0) || (s.db.pid != Some(p.me) && !ownerAlive)) ==>
            Enabled(s, HealBegin(t, ownerAlive)))
  {
    hide AllCurrent, Needs, Encodes;
  }

  /** A capture is stored with a vector of the backend's embedder, stamped with the
      version, exactly when it has a text, is not deferred and the embedder works. */
  lemma CaptureStored(s: State, id: nat, text: string, deferred: bool)
    requires Enabled(s, Store(id, text, deferred)) && s.proc.Some?
    ensures var t, p := Apply(s, Store(id, text, deferred)), s.proc.value;
      && t.proc == s.proc && id in t.db.rows && t.db == s.db.(rows := s.db.rows[id := t.db.rows[id]])
      && t.db.rows[id].text == text
      && (t.db.rows[id].vec.Some? <==> text != "" && !deferred && p.backend.Ready? &&
                                       p.backend.model in s.db.widths && s.db.widths[p.backend.model] == p.backend.dims)
      && (t.db.rows[id].vec.Some? ==>
            t.db.rows[id].vec.value == Vec(Ident(p.backend.model, p.backendVtype, p.backend.dims), s.db.version))
  {
  }

  /** A recovery ends the degradation exactly when there is an embedder or one loads
      for the live configuration; nothing else changes. */
  lemma RecoveryExact(s: State, loads: bool)
    requires Enabled(s, Recover(loads)) && s.proc.Some?
    ensures var t, p := Apply(s, Recover(loads)), s.proc.value;
      && t.db == s.db && t.proc.Some? && (!t.proc.value.degraded <==> p.embedder.Ready? || loads)
      && t.proc.value == p.(degraded := t.proc.value.degraded, embedder := t.proc.value.embedder,
                            backend := t.proc.value.backend)
      && (if p.embedder.Ready? || !loads then t.proc.value.embedder == p.embedder && t.proc.value.backend == p.backend
          else t.proc.value.embedder == t.proc.value.backend == Ready(p.cfg.model, p.cfg.dims))
  {
  }

  /** The version byte runs through 1 to 255 and never is 0. */
  lemma VersionsCycle(v: nat)
    requires 1 <= v <= 255
    ensures NextVersion(v) == v % 255 + 1
  {
  }

  /** A resume whose passes keep finding work gives up after the fifth. */
  lemma FivePasses(w: Sweeper)
    requires w.Sweeping? && w.resume && w.count > 0
    ensures AfterPass(w) == if w.pass < 4 then w.(pass := w.pass + 1, count := 0) else Rest
  {
  }
}
