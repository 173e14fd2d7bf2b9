/** The re-embed operations of the daemon, written out over its fields. */
module ReembedMemory {
  import opened Wrappers
  import opened Reembed
  import opened ReembedRuns

  /** `db` with the rows in `ids` re-encoded. */
  function Converted(db: Db, emb: Embedder, vtype: string, ids: set<nat>): (r: Db)
    requires emb.Ready?
    ensures r == db.(rows := r.rows) && r.rows.Keys == db.rows.Keys
  {
    var vec := Vec(Ident(emb.model, vtype, emb.dims), db.version);
    db.(rows := map id | id in db.rows :: if id in ids then db.rows[id].(vec := Some(vec)) else db.rows[id])
  }

  function Needing(db: Db): set<nat> {
    set id <- db.rows | Needs(db, id)
  }

  function Embeddables(db: Db): set<nat> {
    set id <- db.rows | Embeddable(db.rows[id])
  }

  lemma ConvertOne(db: Db, emb: Embedder, vtype: string, ids: set<nat>, id: nat)
    requires emb.Ready? && id in db.rows
    ensures Encode(Converted(db, emb, vtype, ids), emb, vtype, id) == Converted(db, emb, vtype, ids + {id})
  {
  }

  lemma ConvertedTwice(db: Db, emb: Embedder, vtype: string, ids: set<nat>, more: set<nat>)
    requires emb.Ready?
    ensures Converted(Converted(db, emb, vtype, ids), emb, vtype, more) == Converted(db, emb, vtype, ids + more)
  {
  }

  lemma ConvertedNeeds(db: Db, emb: Embedder, vtype: string, ids: set<nat>)
    requires emb.Ready?
    ensures Needing(Converted(db, emb, vtype, ids)) == Needing(db) - ids
  {
  }

  /** Rounds of work that each re-encode some of the rows still needing it and
      then die. */
  function Rounds(db: Db, emb: Embedder, vtype: string, rounds: seq<set<nat>>): Db
    requires emb.Ready?
    decreases |rounds|
  {
    if rounds == [] then db
    else Rounds(Converted(db, emb, vtype, rounds[0] * Needing(db)), emb, vtype, rounds[1..])
  }

  /** However the work is cut by crashes, the finishing backfill leaves exactly
      the rows of one uninterrupted rebuild. */
  lemma {:induction false} RoundsConverge(db: Db, emb: Embedder, vtype: string, rounds: seq<set<nat>>)
    requires emb.Ready? && NoneCurrent(db)
    ensures var r := Rounds(db, emb, vtype, rounds);
      Converted(r, emb, vtype, Needing(r)) == Converted(db, emb, vtype, Embeddables(db))
  {
    assert Needing(db) == Embeddables(db);
    RoundsFinish(db, emb, vtype, rounds);
  }

  lemma {:induction false} RoundsFinish(db: Db, emb: Embedder, vtype: string, rounds: seq<set<nat>>)
    requires emb.Ready?
    ensures var r := Rounds(db, emb, vtype, rounds);
      Converted(r, emb, vtype, Needing(r)) == Converted(db, emb, vtype, Needing(db))
    decreases |rounds|
  {
    if rounds != [] {
      var ids := rounds[0] * Needing(db);
      var next := Converted(db, emb, vtype, ids);
      RoundsFinish(next, emb, vtype, rounds[1..]);
      ConvertedNeeds(db, emb, vtype, ids);
      assert Converted(next, emb, vtype, Needing(next)) == Converted(db, emb, vtype, Needing(db));
    }
  }

  /** Encoding these rows throws nowhere: there are none, or the embedder encodes
      and none of them fails. */
  ghost predicate Encodable(db: Db, emb: Embedder, failing: set<nat>, ids: set<nat>) {
    ids == {} || (Encodes(db, emb) && ids !! failing)
  }

  lemma OneThrows(db: Db, emb: Embedder, failing: set<nat>, ids: set<nat>, id: nat)
    requires id in ids && (id in failing || !Encodes(db, emb))
    ensures !Encodable(db, emb, failing, ids)
  {
  }

  lemma NoneThrew(db: Db, emb: Embedder, failing: set<nat>, ids: set<nat>)
    requires ids !! failing && (ids != {} ==> Encodes(db, emb))
    ensures Encodable(db, emb, failing, ids)
  {
  }

  lemma SameEncodable(db: Db, db': Db, emb: Embedder, failing: set<nat>, ids: set<nat>)
    requires db'.widths == db.widths
    ensures Encodable(db, emb, failing, ids) <==> Encodable(db', emb, failing, ids)
    ensures Encodes(db, emb) <==> Encodes(db', emb)
  {
  }

  /** A scan over the rows `ids` re-encoded `did`: all of them, unless one throws. */
  ghost predicate Scanned(was: Db, now: Db, emb: Embedder, vtype: string, failing: set<nat>, ids: set<nat>,
                          did: set<nat>, ok: bool)
    requires emb.Ready?
  {
    && (ok <==> Encodable(was, emb, failing, ids))
    && did <= ids && did !! failing && (ok ==> did == ids)
    && now == Converted(was, emb, vtype, did)
  }

  ghost predicate Scanning(was: Db, now: Db, emb: Embedder, vtype: string, failing: set<nat>, ids: set<nat>,
                           todo: set<nat>, did: set<nat>, ok: bool)
    requires emb.Ready?
  {
    && ids <= Embeddables(was) && todo <= ids && did == ids - todo && did !! failing
    && (!ok ==> !Encodable(was, emb, failing, ids))
    && (did != {} ==> Encodes(was, emb))
    && now == Converted(was, emb, vtype, did)
  }

  lemma ScanStart(was: Db, emb: Embedder, vtype: string, failing: set<nat>, ids: set<nat>)
    requires emb.Ready? && ids <= Embeddables(was)
    ensures Scanning(was, was, emb, vtype, failing, ids, ids, {}, true)
  {
    assert Converted(was, emb, vtype, {}) == was;
  }

  lemma NeedingEmbeddable(db: Db)
    ensures Needing(db) <= Embeddables(db)
  {
  }

  lemma ScanThrow(was: Db, now: Db, emb: Embedder, vtype: string, failing: set<nat>, ids: set<nat>,
                  todo: set<nat>, did: set<nat>, id: nat)
    requires emb.Ready? && Scanning(was, now, emb, vtype, failing, ids, todo, did, true)
    requires id in todo && (id in failing || !Encodes(now, emb))
    ensures Scanning(was, now, emb, vtype, failing, ids, todo, did, false)
  {
    SameEncodable(was, now, emb, failing, ids);
    OneThrows(was, emb, failing, ids, id);
  }

  lemma ScanNext(was: Db, now: Db, emb: Embedder, vtype: string, failing: set<nat>, ids: set<nat>,
                 todo: set<nat>, did: set<nat>, id: nat)
    requires emb.Ready? && Scanning(was, now, emb, vtype, failing, ids, todo, did, true)
    requires id in todo && id !in failing && Encodes(now, emb)
    ensures id !in did && id in now.rows && Embeddable(now.rows[id])
    ensures Scanning(was, Encode(now, emb, vtype, id), emb, vtype, failing, ids, todo - {id}, did + {id}, true)
  {
    SameEncodable(was, now, emb, failing, ids);
    ConvertOne(was, emb, vtype, did, id);
  }

  /** A row still to be scanned needs it, if all the scanned rows did. */
  lemma ScanNeeds(was: Db, now: Db, emb: Embedder, vtype: string, failing: set<nat>, ids: set<nat>,
                  todo: set<nat>, did: set<nat>, id: nat)
    requires emb.Ready? && Scanning(was, now, emb, vtype, failing, ids, todo, did, true)
    requires id in todo && ids <= Needing(was)
    ensures Needs(now, id)
  {
    ConvertedNeeds(was, emb, vtype, did);
    assert id in Needing(now);
  }

  lemma ScanEnd(was: Db, now: Db, emb: Embedder, vtype: string, failing: set<nat>, ids: set<nat>,
                todo: set<nat>, did: set<nat>, ok: bool)
    requires emb.Ready? && Scanning(was, now, emb, vtype, failing, ids, todo, did, ok) && (todo == {} || !ok)
    ensures Scanned(was, now, emb, vtype, failing, ids, did, ok)
  {
    if ok {
      assert did == ids;
      NoneThrew(was, emb, failing, ids);
    }
  }

  lemma RebuildEnd(was: Db, now: Db, emb: Embedder, vtype: string, failing: set<nat>,
                   todo: set<nat>, done: set<nat>, ok: bool)
    requires emb.Ready? && Scanning(was, now, emb, vtype, failing, Embeddables(was), todo, done, ok)
    requires todo == {} || !ok
    ensures Scanned(was, now, emb, vtype, failing, Embeddables(was), done, ok)
    ensures done != {} ==> Encodes(was, emb)
  {
    ScanEnd(was, now, emb, vtype, failing, Embeddables(was), todo, done, ok);
  }

  function Missing(db: Db): set<nat> {
    set id <- db.rows | Needs(db, id) && db.rows[id].vec.None?
  }

  function Stale(db: Db): set<nat> {
    set id <- db.rows | Needs(db, id) && db.rows[id].vec.Some?
  }

  lemma FirstScan(db: Db)
    ensures Missing(db) <= Needing(db)
  {
  }

  lemma FirstScanThrew(was: Db, now: Db, emb: Embedder, vtype: string, failing: set<nat>, did: set<nat>)
    requires emb.Ready? && Scanned(was, now, emb, vtype, failing, Missing(was), did, false)
    ensures Scanned(was, now, emb, vtype, failing, Needing(was), did, false)
  {
    FirstScan(was);
  }

  /** What the second scan finds after the first. */
  lemma SecondScan(was: Db, mid: Db, emb: Embedder, vtype: string, failing: set<nat>, first: set<nat>)
    requires emb.Ready? && Scanned(was, mid, emb, vtype, failing, Missing(was), first, true)
    ensures first == Missing(was) && Stale(mid) == Needing(was) - first == Needing(mid)
  {
    ConvertedNeeds(was, emb, vtype, first);
  }

  /** The two scans of a backfill together go over all rows to do. */
  lemma BothScans(was: Db, mid: Db, now: Db, emb: Embedder, vtype: string, failing: set<nat>,
                  first: set<nat>, second: set<nat>, ok: bool)
    requires emb.Ready? && Scanned(was, mid, emb, vtype, failing, Missing(was), first, true)
    requires Scanned(mid, now, emb, vtype, failing, Stale(mid), second, ok)
    ensures Scanned(was, now, emb, vtype, failing, Needing(was), first + second, ok)
    ensures |first + second| == |first| + |second|
  {
    SecondScan(was, mid, emb, vtype, failing, first);
    FirstScan(was);
    assert first !! second && first + Stale(mid) == Needing(was);
    ConvertedTwice(was, emb, vtype, first, second);
    SameEncodable(was, mid, emb, failing, Stale(mid));
    assert Encodable(was, emb, failing, Needing(was)) <==> Encodable(was, emb, failing, Stale(mid));
  }

  lemma ScannedAll(was: Db, now: Db, emb: Embedder, vtype: string, failing: set<nat>, did: set<nat>)
    requires emb.Ready? && Scanned(was, now, emb, vtype, failing, Needing(was), did, true)
    ensures did == Needing(was) && now == Converted(was, emb, vtype, did) && Needing(now) == {} && AllCurrent(now)
  {
    ConvertedNeeds(was, emb, vtype, did);
    NothingNeeded(now);
  }

  /** What a resume that may go ahead leaves: with an embedder the rows to do are
      re-encoded up to one that throws, and the mark goes down exactly when none
      does; without one the mark goes down and no row changes. */
  ghost predicate Resumed(was: Db, now: Db, emb: Embedder, vtype: string, failing: set<nat>, did: set<nat>, ok: bool) {
    && (emb.Disabled? ==> ok && did == {} && now == was.(repair := false))
    && (emb.Ready? ==>
          && (ok <==> Encodable(was, emb, failing, Needing(was)))
          && did <= Needing(was) && did !! failing && (ok ==> did == Needing(was))
          && now == Converted(was, emb, vtype, did).(repair := !ok && was.repair))
    && (ok ==> (AllCurrent(now) <==> emb.Ready? || AllCurrent(was)))
  }

  lemma ResumeThrew(was: Db, before: Db, now: Db, emb: Embedder, vtype: string, failing: set<nat>,
                    did: set<nat>, more: set<nat>, pass: nat)
    requires emb.Ready? && was.repair && Scanned(before, now, emb, vtype, failing, Needing(before), more, false)
    requires pass <= 1 && (pass == 0 ==> before == was)
    requires pass == 1 ==> Scanned(was, before, emb, vtype, failing, Needing(was), did, true)
    ensures pass == 0 && Resumed(was, now, emb, vtype, failing, more, false)
  {
    if pass == 1 {
      ScannedAll(was, before, emb, vtype, failing, did);
      NothingThrows(before, emb, failing);
    }
  }

  /** A pass that went through leaves nothing to do, and the second re-encodes nothing. */
  lemma PassDone(was: Db, before: Db, now: Db, emb: Embedder, vtype: string, failing: set<nat>,
                 did: set<nat>, more: set<nat>, pass: nat)
    requires emb.Ready? ==> Scanned(before, now, emb, vtype, failing, Needing(before), more, true)
    requires pass <= 1 && (pass == 0 ==> before == was)
    requires pass == 1 ==> emb.Ready? && Scanned(was, before, emb, vtype, failing, Needing(was), did, true)
    ensures emb.Ready? ==> AllCurrent(now)
    ensures pass == 1 ==> more == {} && Scanned(was, now, emb, vtype, failing, Needing(was), did, true)
  {
    if emb.Ready? {
      ScannedAll(before, now, emb, vtype, failing, more);
      if pass == 1 {
        ScannedAll(was, before, emb, vtype, failing, did);
        ConvertedTwice(was, emb, vtype, did, more);
        assert did + more == did;
      }
    }
  }

  lemma ResumeDone(was: Db, now: Db, emb: Embedder, vtype: string, failing: set<nat>, did: set<nat>)
    requires emb.Ready? ==> Scanned(was, now, emb, vtype, failing, Needing(was), did, true)
    requires emb.Disabled? ==> now == was && did == {}
    ensures Resumed(was, now.(repair := false), emb, vtype, failing, did, true)
  {
    var t := now.(repair := false);
    assert Needing(t) == Needing(now);
    NothingNeeded(t);
    NothingNeeded(now);
    if emb.Ready? {
      ScannedAll(was, now, emb, vtype, failing, did);
    }
  }

  /** What an update to `to` leaves that re-encoded the rows `done`. */
  function Updated(db: Db, p: Proc, to: Ident, done: set<nat>, ok: bool): State {
    var emb := Ready(to.model, p.cfg.dims);
    var bumped := db.(version := NextVersion(db.version));
    State(Converted(bumped, emb, to.vtype, done).(reembedding := false, pid := None, repair := !ok, ident := to),
          Some(p.(cfg := to, embedder := emb, backend := emb, backendVtype := to.vtype)))
  }

  /** The same, read off the rows and the fields. */
  lemma UpdatedExactly(db: Db, p: Proc, to: Ident, done: set<nat>, ok: bool)
    ensures var t := Updated(db, p, to, done, ok);
      && t.proc == Some(p.(cfg := to, embedder := Ready(to.model, p.cfg.dims), backend := Ready(to.model, p.cfg.dims),
                           backendVtype := to.vtype))
      && !t.db.reembedding && t.db.pid.None? && t.db.repair == !ok && t.db.ident == to
      && t.db.version == (if db.version + 1 > 255 then 1 else db.version + 1)
      && t.db == db.(reembedding := false, pid := None, repair := !ok, ident := to, version := t.db.version,
                     rows := t.db.rows)
      && t.db.rows.Keys == db.rows.Keys
      && forall id <- db.rows ::
           t.db.rows[id] == if id in done then
                              Row(db.rows[id].text, Some(Vec(Ident(to.model, to.vtype, p.cfg.dims), t.db.version)))
                            else db.rows[id]
  {
  }

  class RaggerMemory {
    var db: Db
    const me: Pid
    var cfg: Ident
    var embedder: Embedder
    var backend: Embedder
    var backendVtype: string
    var degraded: bool
    ghost var upd: Updater
    ghost var sweep: Sweeper

    ghost function Live(): Proc
      reads this
    {
      Proc(me, cfg, embedder, backend, backendVtype, degraded, upd, sweep, map[])
    }

    ghost function View(): State
      reads this
    {
      State(db, Some(Live()))
    }

    /** The start of the daemon over a store `stored`. */
    constructor (stored: Db, me: Pid, loads: bool)
      ensures View() == Apply(State(stored, None), Start(me, loads))
      ensures degraded <==> !loads || ((exists id <- stored.rows :: stored.rows[id].vec.Some?) &&
                                       (stored.ident.vtype != stored.cfgVtype || stored.ident.dims != stored.cfgDims))
    {
      this.me := me;
      var config := Ident(stored.ident.model, stored.cfgVtype, stored.cfgDims);
      var emb := if loads then Ready(config.model, config.dims) else Disabled;
      cfg, embedder, backend, backendVtype := config, emb, emb, config.vtype;
      degraded := !loads;
      db := stored;
      upd, sweep := Idle, Rest;
      new;
      if db.ident.vtype != cfg.vtype {
        if HasVectors(db) { degraded := true; return; }
        db := db.(ident := db.ident.(vtype := cfg.vtype));
      }
      if db.ident.dims != cfg.dims {
        if HasVectors(db) { degraded := true; return; }
        db := db.(ident := db.ident.(dims := cfg.dims));
      }
    }

    predicate OwnerLives(ownerAlive: bool)
      reads this
    {
      db.pid.Some? && db.pid.value > 0 && (db.pid.value == me || ownerAlive)
    }

    /** The flag counts only while its owner lives; a stale one is cleared and
        the repair marked. */
    method IsReembedding(ownerAlive: bool, ghost s: State, ghost n0: nat, ghost slip: Slip)
      returns (busy: bool, ghost n: nat)
      requires Reaches(s, n0, View(), slip)
      modifies this`db
      ensures Reaches(s, n, View(), slip)
      ensures busy <==> old(db.reembedding) && old(OwnerLives(ownerAlive))
      ensures busy <==> old(db.reembedding) && old(db.pid.Some?) && old(db.pid.value) > 0 &&
                        (old(db.pid.value) == me || ownerAlive)
      ensures db == if old(db.reembedding) && !busy
                    then old(db).(reembedding := false, pid := None, repair := true) else old(db)
    {
      hide Reaches;
      n := n0;
      if !db.reembedding { return false, n; }
      if db.pid.Some? && db.pid.value > 0 {
        if db.pid.value != me {
          if ownerAlive { return true, n; }
        } else {
          return true, n;
        }
      }
      n := HealSteps(s, n, db, Live(), ownerAlive, slip);
      db := db.(reembedding := false);
      db := db.(pid := None);
      db := db.(repair := true);
      return false, n;
    }

    /** Which index `search` asks. The heal runs before the mark is read. */
    method Search(ownerAlive: bool) returns (byVector: bool, ghost n: nat)
      modifies this`db
      ensures Reaches(old(View()), n, View(), Strict)
      ensures byVector == old(VectorPath(View()))
      ensures byVector <==> !old(db.reembedding) && !old(db.repair) && !old(degraded) && old(embedder.Ready?)
      ensures byVector ==> db == old(db)
    {
      ReachesSelf(View(), Strict);
      var busy;
      busy, n := IsReembedding(ownerAlive, View(), 0, Strict);
      if busy || db.repair { return false, n; }
      if degraded || !embedder.Ready? { return false, n; }
      return true, n;
    }

    /** Re-encodes the rows of one scan, each in its own write, up to the first
        that throws. */
    method Process(emb: Embedder, ids: set<nat>, failing: set<nat>, ghost s: State, ghost n0: nat, ghost slip: Slip)
      returns (ok: bool, done: nat, ghost did: set<nat>, ghost n: nat)
      requires sweep.Sweeping? && sweep.emb == emb && emb.Ready?
      requires ids <= Needing(db) && Reaches(s, n0, View(), slip)
      modifies this`db, this`sweep
      ensures Reaches(s, n, View(), slip) && sweep == old(sweep).(count := old(sweep.count) + done)
      ensures Scanned(old(db), db, emb, backendVtype, failing, ids, did, ok) && done == |did|
    {
      hide Reaches, Scanning, Scanned, Encodes, Encode, Needing;
      ghost var was := db;
      var todo := ids;
      ok, done, did, n := true, 0, {}, n0;
      NeedingEmbeddable(was);
      ScanStart(was, emb, backendVtype, failing, ids);
      while todo != {} && ok
        invariant Scanning(was, db, emb, backendVtype, failing, ids, todo, did, ok) && done == |did|
        invariant sweep == old(sweep).(count := old(sweep.count) + done)
        invariant Reaches(s, n, View(), slip)
        decreases |todo|, ok
      {
        var id :| id in todo;
        if id in failing || !Encodes(db, emb) {
          ScanThrow(was, db, emb, backendVtype, failing, ids, todo, did, id);
          ok := false;
        } else {
          ScanNeeds(was, db, emb, backendVtype, failing, ids, todo, did, id);
          ScanNext(was, db, emb, backendVtype, failing, ids, todo, did, id);
          n := EncodeOne(id, emb, s, n, slip);
          did := did + {id};
          todo, done := todo - {id}, done + 1;
        }
      }
      ScanEnd(was, db, emb, backendVtype, failing, ids, todo, did, ok);
    }

    /** One row of a pass. */
    method EncodeOne(id: nat, emb: Embedder, ghost s: State, ghost n0: nat, ghost slip: Slip) returns (ghost n: nat)
      requires sweep.Sweeping? && sweep.emb == emb && Encodes(db, emb) && Needs(db, id) && Reaches(s, n0, View(), slip)
      modifies this`db, this`sweep
      ensures Reaches(s, n, View(), slip) && sweep == old(sweep).(count := old(sweep.count) + 1)
      ensures db == Encode(old(db), emb, backendVtype, id)
    {
      hide Reaches, Encode;
      n := SweepRowStep(s, n0, db, Live(), id, slip);
      db := Encode(db, emb, backendVtype, id);
      sweep := sweep.(count := sweep.count + 1);
    }

    /** The backend's backfill: pass 1 fills the missing vectors, pass 2 the stale
        ones. A disabled embedder is not used. */
    method Backfill(emb: Embedder, failing: set<nat>, ghost s: State, ghost n0: nat, ghost slip: Slip)
      returns (ok: bool, filled: nat, ghost did: set<nat>, ghost n: nat)
      requires sweep.Sweeping? && sweep.emb == emb && Reaches(s, n0, View(), slip)
      modifies this`db, this`sweep
      ensures Reaches(s, n, View(), slip) && sweep == old(sweep).(count := old(sweep.count) + filled)
      ensures emb.Disabled? ==> ok && db == old(db) && filled == 0
      ensures emb.Ready? ==>
        Scanned(old(db), db, emb, backendVtype, failing, Needing(old(db)), did, ok) && filled == |did|
    {
      hide Reaches, Scanned, Needing, Needs;
      ok, filled, did, n := true, 0, {}, n0;
      if emb.Disabled? { return; }
      ghost var was := db;
      var missing := Missing(db);
      FirstScan(db);
      ok, filled, did, n := Process(emb, missing, failing, s, n, slip);
      if !ok {
        FirstScanThrew(was, db, emb, backendVtype, failing, did);
        return;
      }
      ghost var mid, first := db, did;
      var stale := Stale(db);
      SecondScan(was, mid, emb, backendVtype, failing, first);
      var more; ghost var second;
      ok, more, second, n := Process(emb, stale, failing, s, n, slip);
      BothScans(was, mid, db, emb, backendVtype, failing, first, second, ok);
      did := first + second;
      filled := filled + more;
    }

    /** A pass of its own, as housekeeping runs it last. */
    method BackfillEmbeddings(failing: set<nat>) returns (ok: bool, filled: nat, ghost did: set<nat>, ghost n: nat)
      requires sweep.Rest? && !InWindow(upd)
      modifies this`db, this`sweep
      ensures sweep.Rest? && Reaches(old(View()), n, View(), if degraded then Any else Strict)
      ensures embedder.Disabled? ==> ok && db == old(db) && filled == 0
      ensures embedder.Ready? ==>
        Scanned(old(db), db, embedder, backendVtype, failing, Needing(old(db)), did, ok) && filled == |did|
    {
      hide Reaches, Scanned, Needing;
      ghost var s, slip := View(), if degraded then Any else Strict;
      ReachesSelf(s, slip);
      n := SweepBeginStep(s, 0, db, Live(), false, slip);
      sweep := Sweeping(false, embedder, 0, 0);
      ok, filled, did, n := Backfill(embedder, failing, s, n, slip);
      if ok {
        if embedder.Ready? { ScannedAll(old(db), db, embedder, backendVtype, failing, did); }
        n := SweepEndStep(s, n, db, Live(), slip);
      } else {
        n := SweepThrowStep(s, n, db, Live(), slip);
      }
      sweep := Rest;
    }

    /** Whether a resume may go ahead: a repair is owed and no living owner works on it. */
    predicate Due(ownerAlive: bool)
      reads this
    {
      db.repair && !(db.reembedding && OwnerLives(ownerAlive))
    }

    /** Finishes an interrupted run with at most one working pass and one that
        confirms it. The mark goes down exactly when the run may go ahead and no
        row throws; no row is then left to do precisely when the embedder is usable
        or there was none to begin with. */
    method ResumeInterruptedReembed(ownerAlive: bool, failing: set<nat>)
      returns (ok: bool, total: nat, ghost did: set<nat>, ghost n: nat)
      requires sweep.Rest? && !InWindow(upd)
      modifies this`db, this`sweep
      ensures sweep.Rest? && Reaches(old(View()), n, View(), if degraded then Any else Strict)
      ensures !old(Due(ownerAlive)) ==> ok && db == old(db) && total == 0
      ensures old(Due(ownerAlive)) ==>
        Resumed(old(db).(reembedding := false, pid := if old(db.reembedding) then None else old(db.pid)),
                db, embedder, backendVtype, failing, did, ok) &&
        (ok ==> total == |did|)
    {
      hide Reaches, Resumed;
      ghost var s, slip := View(), if degraded then Any else Strict;
      ReachesSelf(s, slip);
      ok, total, did, n := true, 0, {}, 0;
      if !db.repair { return; }
      var busy;
      busy, n := IsReembedding(ownerAlive, s, n, slip);
      if busy { return; }
      assert db == old(db).(reembedding := false, pid := if old(db.reembedding) then None else old(db.pid));
      n := SweepBeginStep(s, n, db, Live(), true, slip);
      sweep := Sweeping(true, embedder, 0, 0);
      ok, total, did, n := Passes(failing, s, n, slip);
    }

    /** The passes of a resume. */
    method Passes(failing: set<nat>, ghost s: State, ghost n0: nat, ghost slip: Slip)
      returns (ok: bool, total: nat, ghost did: set<nat>, ghost n: nat)
      requires sweep == Sweeping(true, embedder, 0, 0) && Reaches(s, n0, View(), slip) && db.repair
      modifies this`db, this`sweep
      ensures sweep.Rest? && Reaches(s, n, View(), slip)
      ensures Resumed(old(db), db, embedder, backendVtype, failing, did, ok) && (ok ==> total == |did|)
    {
      hide Reaches, Scanned, Resumed, Needing;
      total, did, n := 0, {}, n0;
      ghost var was := db;
      var emb := embedder;
      for pass := 0 to MAX_PASSES
        invariant pass <= 1 && sweep == Sweeping(true, emb, pass, 0) && Reaches(s, n, View(), slip)
        invariant pass == 0 ==> db == was && total == 0 && did == {}
        invariant pass == 1 ==> (
          emb.Ready? && Scanned(was, db, emb, backendVtype, failing, Needing(was), did, true) &&
          total == |did| && did != {})
      {
        ghost var before := db;
        var filled; ghost var more;
        ok, filled, more, n := Backfill(emb, failing, s, n, slip);
        if !ok {
          n := SweepThrowStep(s, n, db, Live(), slip);
          sweep := Rest;
          ResumeThrew(was, before, db, emb, backendVtype, failing, did, more, pass);
          did := more;
          return;
        }
        total := total + filled;
        PassDone(was, before, db, emb, backendVtype, failing, did, more, pass);
        n := SweepEndStep(s, n, db, Live(), slip);
        sweep := AfterPass(sweep);
        if pass == 0 && emb.Ready? { did := more; }
        if filled == 0 {
          n := SweepClearStep(s, n, db, Live(), slip);
          ResumeDone(was, db, emb, backendVtype, failing, did);
          db := db.(repair := false);
          sweep := Rest;
          return;
        }
      }
    }

    /** Every write up to the backend swap; the flag and its owner are set. */
    method Promote(to: Ident, ghost s: State, ghost n0: nat, ghost slip: Slip) returns (ghost n: nat)
      requires upd.Owned? && sweep.Rest? && Reaches(s, n0, View(), slip)
      requires slip.Any? || (WidthAllowed(db, Live(), to) && Unwrapped(db))
      modifies this
      ensures Reaches(s, n, View(), slip)
      ensures db == old(db).(version := NextVersion(old(db.version)), repair := true, ident := to)
      ensures var emb := Ready(to.model, old(cfg.dims));
        Live() == old(Live()).(cfg := to, embedder := emb, backend := emb, backendVtype := to.vtype,
                               upd := Promoted(emb))
    {
      hide Reaches, Apply, Enabled, Assumed, WidthAllowed, Unwrapped;
      var emb := Ready(to.model, cfg.dims);
      n := BumpSteps(s, n0, db, Live(), to, slip);
      db := db.(version := NextVersion(db.version));
      upd := Bumped(to, emb);
      n := NameSteps(s, n, db, Live(), slip);
      db := db.(repair := true);
      db := db.(ident := db.ident.(model := to.model));
      upd := Modeled(to, emb);
      n := TypeSteps(s, n, db, Live(), slip);
      db := db.(ident := db.ident.(vtype := to.vtype));
      db := db.(ident := db.ident.(dims := to.dims));
      upd := Sized(to, emb);
      n := ConfigSteps(s, n, db, Live(), slip);
      cfg := to;
      backendVtype := to.vtype;
      upd := Retyped(to, emb);
      n := SwapSteps(s, n, db, Live(), slip);
      embedder := emb;
      backend := embedder;
      upd := Promoted(emb);
    }

    /** Re-encodes every row with text, or stops at the first that throws. */
    method RebuildEmbeddings(failing: set<nat>, ghost s: State, ghost n0: nat, ghost slip: Slip)
      returns (ok: bool, ghost n: nat, ghost done: set<nat>)
      requires upd.Promoted? && upd.emb == embedder && embedder.Ready? && Reaches(s, n0, View(), slip)
      modifies this`db
      ensures Reaches(s, n, View(), slip)
      ensures ok <==> Encodable(old(db), embedder, failing, Embeddables(old(db)))
      ensures done <= Embeddables(old(db)) && done !! failing && (ok ==> done == Embeddables(old(db)))
      ensures done != {} ==> Encodes(old(db), embedder)
      ensures db == Converted(old(db), embedder, backendVtype, done)
    {
      hide Reaches, Scanning, Encodes, Encode, Embeddables;
      ghost var was, all := db, Embeddables(db);
      n, ok, done := n0, true, {};
      var todo := Embeddables(db);
      ScanStart(was, embedder, backendVtype, failing, all);
      while todo != {} && ok
        invariant Scanning(was, db, embedder, backendVtype, failing, all, todo, done, ok) && Reaches(s, n, View(), slip)
        decreases |todo|, ok
      {
        var id :| id in todo;
        if id in failing || !Encodes(db, embedder) {
          ScanThrow(was, db, embedder, backendVtype, failing, all, todo, done, id);
          ok := false;
        } else {
          ScanNext(was, db, embedder, backendVtype, failing, all, todo, done, id);
          n := RowStep(s, n, db, Live(), id, slip);
          db := Encode(db, embedder, backendVtype, id);
          done, todo := done + {id}, todo - {id};
        }
      }
      RebuildEnd(was, db, embedder, backendVtype, failing, todo, done, ok);
    }

    /** What an update needs of its surroundings, when nothing runs beside it. */
    ghost predicate UpdateAllowed(to: Ident, builds: bool)
      reads this
    {
      if builds then WidthAllowed(db, Live(), to) && Unwrapped(db) else !db.repair
    }

    /** The staged re-embed. `failing` are the rows whose encoding throws. Every
        write is a step of the protocol that drops no assumption, when the update
        is allowed, so crash safety holds after each and after a crash there. */
    method UpdateEmbeddings(to: Ident, builds: bool, failing: set<nat>)
      returns (ok: bool, ghost n: nat, ghost done: set<nat>)
      requires upd.Idle? && sweep.Rest?
      modifies this
      ensures upd.Idle? && sweep.Rest?
      ensures Reaches(old(View()), n, View(), if old(UpdateAllowed(to, builds)) then Strict else Any)
      ensures ok <==> builds && Encodable(old(db), Ready(to.model, old(cfg.dims)), failing, Embeddables(old(db)))
      ensures !builds ==> Live() == old(Live()) && db == old(db).(reembedding := false, pid := None, repair := false)
      ensures builds ==>
        && done <= Embeddables(old(db)) && done !! failing && (ok ==> done == Embeddables(old(db)))
        && (done != {} ==> Encodes(old(db), Ready(to.model, old(cfg.dims))))
        && View() == Updated(old(db), old(Live()), to, done, ok)
    {
      hide Reaches, Apply, Enabled, Assumed, WidthAllowed, Unwrapped, Encodable, Encodes;
      ghost var s, slip := View(), if UpdateAllowed(to, builds) then Strict else Any;
      done := {};
      ReachesSelf(s, slip);
      n := OwnSteps(s, 0, db, Live(), slip);
      AllowedOwned(db, Live(), to, Some(me));
      db := db.(reembedding := true);
      db := db.(pid := Some(me));
      upd := Owned(db.repair);
      if !builds {
        ok := false;
        n := ThrowStep(s, n, db, Live(), slip);
        upd := Failing;
        n := FinishSteps(s, n, db, Live(), slip);
        db := db.(repair := false);
      } else {
        n := Promote(to, s, n, slip);
        SameEncodable(old(db), db, embedder, failing, Embeddables(db));
        assert Embeddables(db) == Embeddables(old(db));
        ok, n, done := Rebuild(to, failing, s, n, slip);
      }
      db := db.(reembedding := false);
      upd := Disowning;
      n := DisownStep(s, n, db, Live(), slip);
      db := db.(pid := None);
      upd := Idle;
    }

    /** The part of an update behind the promotion, up to where the flag goes down. */
    method Rebuild(to: Ident, failing: set<nat>, ghost s: State, ghost n0: nat, ghost slip: Slip)
      returns (ok: bool, ghost n: nat, ghost done: set<nat>)
      requires upd.Promoted? && upd.emb == embedder && embedder.Ready? && Reaches(s, n0, View(), slip)
      modifies this`db, this`upd
      ensures Reaches(s, n, State(db.(reembedding := false), Some(Live().(upd := Disowning))), slip)
      ensures ok <==> Encodable(old(db), embedder, failing, Embeddables(old(db)))
      ensures done <= Embeddables(old(db)) && done !! failing && (ok ==> done == Embeddables(old(db)))
      ensures done != {} ==> Encodes(old(db), embedder)
      ensures var after := Converted(old(db), embedder, backendVtype, done);
        db == if ok then after.(repair := false) else after
    {
      hide Reaches, Encodable, Encodes;
      ghost var was := db;
      ok, n, done := RebuildEmbeddings(failing, s, n0, slip);
      if ok {
        ConvertedNeeds(was, embedder, backendVtype, done);
        assert Needing(was) - done == {};
        NothingNeeded(db);
        n := VerifySteps(s, n, db, Live(), slip);
        upd := Verified;
        n := FinishSteps(s, n, db, Live(), slip);
        db := db.(repair := false);
      } else {
        n := GiveUpSteps(s, n, db, Live(), slip);
      }
    }
  }

  /** Raising the flag changes nothing of what an update needs. */
  lemma AllowedOwned(db: Db, p: Proc, to: Ident, pid: Option<Pid>)
    ensures var owned := db.(reembedding := true, pid := pid);
      && (WidthAllowed(db, p, to) ==> WidthAllowed(owned, p.(upd := Owned(owned.repair)), to))
      && (Unwrapped(db) ==> Unwrapped(owned))
  {
  }

  lemma NothingNeeded(db: Db)
    ensures Needing(db) == {} <==> AllCurrent(db)
  {
    if Needing(db) == {} {
      forall id <- db.rows ensures !Needs(db, id) {
        assert id !in Needing(db);
      }
    }
  }

  /** Nothing left to throw at once some is known not to. */
  lemma NothingThrows(db: Db, emb: Embedder, failing: set<nat>)
    ensures Needing(db) == {} ==> Encodable(db, emb, failing, Needing(db))
  {
  }

  // ----- What an update leaves search with -----

  /** A completed update leaves search right exactly when the process is degraded
      or the staged width is the configured one, for which the embedder is built. */
  lemma UpdateSafeExactly(db: Db, p: Proc, to: Ident)
    requires TextlessNull(db)
    ensures Safe(Updated(db, p, to, Embeddables(db), true)) <==> p.degraded || to.dims == p.cfg.dims
  {
    var t := Updated(db, p, to, Embeddables(db), true);
    assert forall id <- t.db.rows :: t.db.rows[id].vec.Some? ==>
      t.db.rows[id].vec.value.made == Ident(to.model, to.vtype, p.cfg.dims);
  }

  /** After a completed update of a store with a text, a restart searches by vector
      exactly when the model loads and the configuration rows, which no update
      writes, already named the new type and width. */
  lemma RestartAfterUpdate(db: Db, p: Proc, to: Ident, me: Pid, loads: bool)
    requires HasText(db)
    ensures var down := Apply(Updated(db, p, to, Embeddables(db), true), Crash);
      VectorPath(Apply(down, Start(me, loads))) <==> loads && to.vtype == db.cfgVtype && to.dims == db.cfgDims
  {
    var t := Updated(db, p, to, Embeddables(db), true);
    var id :| id in db.rows && Embeddable(db.rows[id]);
    assert id in t.db.rows && t.db.rows[id].vec.Some?;
    assert HasVectors(t.db);
    RestartVectorSearch(State(t.db, None), me, loads);
  }

  /** An update to a model of another width than the configured one fails at the
      first text and leaves search on text until a model is staged again. */
  lemma WideUpdate(db: Db, p: Proc, to: Ident)
    requires p.upd.Idle? && p.sweep.Rest? && HasText(db) && Unwrapped(db)
    requires !Encodes(db, Ready(to.model, p.cfg.dims)) && !Encodes(db, Ready(to.model, db.cfgDims))
    ensures Wide(Updated(db, p, to, {}, false)) && !VectorPath(Updated(db, p, to, {}, false))
  {
    var t := Updated(db, p, to, {}, false);
    var id :| id in db.rows && Embeddable(db.rows[id]);
    assert Needs(t.db, id);
    WideTextOnly(t);
  }
}
