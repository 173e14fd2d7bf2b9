/** The summarizer service over its fields. Inference, the clock and the order in
    which the backend lists rows are parameters. Each method is a run of the
    protocol's steps, so what holds of every run holds of every call. */
module SummarizerService {
  import opened Wrappers
  import opened Strippers
  import opened Summarizer
  import B = Backoff

  function ModelOf(endpoint: Option<string>): string {
    if endpoint.Some? && endpoint.value != "" then endpoint.value else SKIPPED
  }

  /** The job ends in a blamed failure: inference was there and gave nothing. */
  predicate Blamed(env: Env, s: State, id: int, endpoint: Option<string>, summary: string) {
    !Trivial(TextOf(env, id)) && id !in s.rows && endpoint.Some? && summary == "" && env.maxFailures > 0
  }

  /** The row a job leaves behind, if any. */
  function RowAfter(env: Env, s: State, id: int, endpoint: Option<string>, summary: string): Option<Row> {
    if TextOf(env, id).assistant == "" then None
    else if Trivial(TextOf(env, id)) then Some(Row("", ModelOf(endpoint)))
    else if id in s.rows || endpoint.None? then None
    else if summary != "" then Some(Row(summary, endpoint.value))
    else if Blamed(env, s, id, endpoint, summary) && CountOf(s.failures, id) + 1 >= env.maxFailures
      then Some(Row("", BAD))
    else None
  }

  /** The row a turn without one is left with, by the lengths of its texts: none for
      a partial turn; a mark without inference below 80 characters together or 20 of
      answer; else the text inference gave; else a stamp at the failure limit. */
  ghost predicate Ended(t: Turn, failed: nat, limit: int, endpoint: Option<string>, summary: string, row: Option<Row>) {
    var user := if IsSystemInjectedTurn(t.user) then 0 else |t.user|;
    if |t.assistant| == 0 then row == None
    else if user + |t.assistant| < 80 || |t.assistant| < 20 then
      row == Some(Row("", if endpoint == None || endpoint == Some("") then "(skipped)" else endpoint.value))
    else if endpoint == None then row == None
    else if summary != "" then row == Some(Row(summary, endpoint.value))
    else row == if limit > 0 && failed + 1 >= limit then Some(Row("", "bad")) else None
  }

  lemma EndedExactly(env: Env, s: State, id: int, endpoint: Option<string>, summary: string)
    requires id in env.turns && id !in s.rows
    ensures Ended(env.turns[id], CountOf(s.failures, id), env.maxFailures, endpoint, summary,
                  RowAfter(env, s, id, endpoint, summary))
  {
    hide IsSystemInjectedTurn;
  }

  lemma PartialTrivial(t: Turn)
    requires t.assistant == ""
    ensures Trivial(t)
  {
  }

  lemma InsertExact(rows: map<int, Row>, id: int, stored: bool)
    ensures forall r :: var t := Insert(rows, id, r, stored);
      (id in rows || !stored ==> t == rows) && (id !in rows && stored ==> t == rows[id := r])
  {
  }

  function TurnJobs(env: Env, found: seq<int>): seq<Job> {
    if found == [] then []
    else (if TextOf(env, found[0]).assistant == "" then [] else [L2Turn(found[0])]) + TurnJobs(env, found[1..])
  }

  function EpisodeJobs(idle: seq<string>): seq<Job> {
    if idle == [] then [] else [EpisodeClose(idle[0])] + EpisodeJobs(idle[1..])
  }

  predicate Answered(env: Env, id: int) {
    id in env.turns && env.turns[id].assistant != ""
  }

  ghost predicate Picks(env: Env, found: seq<int>, at: seq<nat>, jobs: seq<Job>) {
    && (forall i, j | 0 <= i < j < |at| :: at[i] < at[j])
    && (forall i | 0 <= i < |at| :: at[i] < |found| && Answered(env, found[at[i]]))
    && (forall k: nat | k < |found| && Answered(env, found[k]) :: k in at)
    && |jobs| == |at| && forall i | 0 <= i < |at| && at[i] < |found| :: jobs[i] == L2Turn(found[at[i]])
  }

  lemma {:induction false} TurnJobsSnoc(env: Env, found: seq<int>, id: int)
    ensures TurnJobs(env, found + [id]) == TurnJobs(env, found) + if Answered(env, id) then [L2Turn(id)] else []
  {
    if found == [] {
      assert [] + [id] == [id] && [id][1..] == [];
    } else {
      TurnJobsSnoc(env, found[1..], id);
      assert (found + [id])[1..] == found[1..] + [id];
    }
  }

  lemma PicksMore(env: Env, found: seq<int>, at: seq<nat>, jobs: seq<Job>, id: int)
    requires Picks(env, found, at, jobs)
    ensures if Answered(env, id) then Picks(env, found + [id], at + [|found|], jobs + [L2Turn(id)])
            else Picks(env, found + [id], at, jobs)
  {
    hide Answered;
    var more, n := found + [id], |found|;
    assert forall k: nat | k < n :: more[k] == found[k];
    assert more[n] == id;
    forall k: nat | k < |more| && Answered(env, more[k]) ensures k in at + if Answered(env, id) then [n] else [] {
      if k < n { assert k in at; }
    }
  }

  /** One job for each turn found that has an answer, in the order found. */
  lemma {:induction false} TurnJobsExact(env: Env, found: seq<int>) returns (at: seq<nat>)
    ensures Picks(env, found, at, TurnJobs(env, found))
  {
    at := [];
    if found != [] {
      hide Picks, Answered, TurnJobs;
      var front, id := found[..|found| - 1], found[|found| - 1];
      assert found == front + [id];
      at := TurnJobsExact(env, front);
      TurnJobsSnoc(env, front, id);
      PicksMore(env, front, at, TurnJobs(env, front), id);
      assert TurnJobs(env, front) + [] == TurnJobs(env, front);
      if Answered(env, id) { at := at + [|front|]; }
    }
  }

  lemma {:induction false} EpisodeJobsExact(idle: seq<string>)
    ensures |EpisodeJobs(idle)| == |idle| && forall i | 0 <= i < |idle| :: EpisodeJobs(idle)[i] == EpisodeClose(idle[i])
  {
    if idle != [] { EpisodeJobsExact(idle[1..]); }
  }

  /** The first reset that removed something keeps the next away for five minutes, each
      further one twice as long as the last, up to six hours. */
  lemma ResetWaits(s: B.Schedule, clock: nat)
    ensures var t := B.AfterFailure(s, BASE, MAX, clock);
      && t.next == clock + t.delay
      && (s.delay == 0 ==> t.delay == 300)
      && (s.delay > 0 ==> t.delay == if 2 * s.delay <= 21600 then 2 * s.delay else 21600)
  {
  }

  lemma TurnJobsNext(env: Env, found: seq<int>)
    requires found != []
    ensures TurnJobs(env, found) ==
            (if TextOf(env, found[0]).assistant == "" then [] else [L2Turn(found[0])]) + TurnJobs(env, found[1..])
  {
  }

  lemma ReachesSelf(env: Env, s: State)
    ensures Reaches(env, s, 0, s)
  {
  }

  class SummarizerService {
    const env: Env
    var running: bool
    var rows: map<int, Row>
    var queue: seq<Job>
    var failures: map<int, nat>
    const resetBackoff: B.Backoff
    ghost var worker: Worker
    ghost var scan: Scan
    ghost var pushed: nat
    ghost var now: nat
    ghost var log: seq<Event>

    ghost function View(): State
      reads this, resetBackoff
    {
      State(rows, queue, failures, worker, scan, pushed, resetBackoff.View(), now, log)
    }

    ghost predicate Valid()
      reads this, resetBackoff
    {
      resetBackoff.base == BASE && resetBackoff.max == MAX
    }

    constructor (env: Env, rows: map<int, Row>)
      ensures Valid() && Init(View()) && this.env == env && this.rows == rows && running && fresh(resetBackoff)
    {
      this.env, this.rows, running := env, rows, true;
      queue, failures := [], map[];
      resetBackoff := new B.Backoff(BASE, MAX);
      worker, scan, pushed, now, log := Idle, Rest, 0, 0, [];
    }

    method EnqueueTurn(id: int)
      requires Valid()
      modifies this`queue
      ensures View() ==
        if old(running) && TextOf(env, id).assistant != "" then Apply(env, old(View()), Enqueue(id))
        else old(View())
      ensures queue ==
        if old(running) && id in env.turns && env.turns[id].assistant != "" && |old(queue)| < 1000
        then old(queue) + [L2Turn(id)] else old(queue)
    {
      if !running || TextOf(env, id).assistant == "" { return; }
      if |queue| >= QUEUE_LIMIT { return; }
      queue := queue + [L2Turn(id)];
    }

    /** The turn_summaries insert of the backend. */
    method InsertRow(id: int, r: Row, turnExists: bool) returns (ok: bool)
      modifies this`rows
      ensures rows == Insert(old(rows), id, r, turnExists) && (ok <==> turnExists && id !in old(rows))
    {
      ok := turnExists && id !in rows;
      if ok { rows := rows[id := r]; }
    }

    /** Inference gave nothing: count it, and give the turn up at the limit. */
    method RecordFailure(id: int, model: string, turnExists: bool, ghost s: State, ghost n0: nat) returns (ghost n: nat)
      requires Valid() && worker == Checked(id, model) && Reaches(env, s, n0, View())
      modifies this`rows, this`failures, this`worker, this`log
      ensures worker == Idle && Reaches(env, s, n, View())
      ensures var count := CountOf(old(failures), id) + 1;
        if env.maxFailures <= 0 then rows == old(rows) && failures == old(failures)
        else if count < env.maxFailures then rows == old(rows) && failures == old(failures)[id := count]
        else rows == Insert(old(rows), id, Row("", BAD), turnExists) && failures == old(failures) - {id}
    {
      hide Reaches;
      n := Extend(env, s, n0, View(), Infer(""));
      if env.maxFailures > 0 {
        var count := CountOf(failures, id) + 1;
        failures := failures[id := count];
        log := log + [Failed(id, model)];
        if count >= env.maxFailures {
          worker := Exhausted(id);
          n := Abandon(id, turnExists, s, n);
        }
      }
      worker := Idle;
    }

    method Abandon(id: int, turnExists: bool, ghost s: State, ghost n0: nat) returns (ghost n: nat)
      requires worker == Exhausted(id) && Reaches(env, s, n0, View())
      modifies this`rows, this`failures, this`worker, this`log
      ensures worker == Idle && Reaches(env, s, n, View())
      ensures rows == Insert(old(rows), id, Row("", BAD), turnExists) && failures == old(failures) - {id}
    {
      hide Reaches;
      n := Extend(env, s, n0, View(), Stamp(turnExists));
      var _ := InsertRow(id, Row("", BAD), turnExists);
      log := log + [Abandoned(id)];
      worker := Stamped(id);
      n := Extend(env, s, n, View(), EraseStamped);
      failures := failures - {id};
      worker := Idle;
    }

    method StoreSummary(id: int, model: string, summary: string, turnExists: bool, ghost s: State, ghost n0: nat)
      returns (ghost n: nat)
      requires Valid() && worker == Checked(id, model) && summary != "" && id !in rows && Reaches(env, s, n0, View())
      modifies this`rows, this`failures, this`worker, this`log, resetBackoff
      ensures Valid() && worker == Idle && Reaches(env, s, n, View())
      ensures rows == Insert(old(rows), id, Row(summary, model), turnExists)
      ensures failures == if turnExists then old(failures) - {id} else old(failures)
      ensures resetBackoff.View() == if turnExists then B.FRESH else old(resetBackoff.View())
    {
      hide Reaches;
      n := Extend(env, s, n0, View(), Infer(summary));
      worker := Summarized(id, summary, model);
      n := Extend(env, s, n, View(), Finalize(turnExists));
      var ok := InsertRow(id, Row(summary, model), turnExists);
      if !ok {
        worker := Idle;
        return;
      }
      worker := Finalized(id);
      n := Extend(env, s, n, View(), Settle);
      failures := failures - {id};
      resetBackoff.Succeeded();
      log := log + [Succeeded(id)];
      worker := Idle;
    }

    /** One L2 job: `endpoint` is the configured model, `summary` what inference
        returned (empty on failure), `turnExists` whether the turn is still there.
        The last two clauses say what that comes to, by the lengths of the texts. */
    method HandleL2(id: int, endpoint: Option<string>, summary: string, turnExists: bool) returns (ghost n: nat)
      requires Valid() && worker == Got(id)
      modifies this`rows, this`failures, this`worker, this`log, resetBackoff
      ensures Valid() && worker == Idle && Reaches(env, old(View()), n, View())
      ensures var row := RowAfter(env, old(View()), id, endpoint, summary);
        rows == if row.Some? then Insert(old(rows), id, row.value, turnExists) else old(rows)
      ensures failures ==
        if Blamed(env, old(View()), id, endpoint, summary) then
          var count := CountOf(old(failures), id) + 1;
          if count >= env.maxFailures then old(failures) - {id} else old(failures)[id := count]
        else if RowAfter(env, old(View()), id, endpoint, summary).Some? && summary != "" &&
                !Trivial(TextOf(env, id)) && turnExists
        then old(failures) - {id}
        else old(failures)
      ensures resetBackoff.View() ==
        if RowAfter(env, old(View()), id, endpoint, summary).Some? && summary != "" &&
           !Trivial(TextOf(env, id)) && turnExists
        then B.FRESH
        else old(resetBackoff.View())
      ensures forall i | i != id :: (i in rows <==> i in old(rows)) && (i in rows ==> rows[i] == old(rows)[i])
      ensures id in old(rows) ==> rows == old(rows)
      ensures id in env.turns && id !in old(rows) && turnExists ==>
        Ended(env.turns[id], CountOf(old(failures), id), env.maxFailures, endpoint, summary,
              if id in rows then Some(rows[id]) else None)
    {
      hide Reaches, Trivial, Insert, RowAfter, Ended;
      if id in env.turns && id !in rows { EndedExactly(env, View(), id, endpoint, summary); }
      InsertExact(rows, id, turnExists);
      n := RunL2(id, endpoint, summary, turnExists);
    }

    method RunL2(id: int, endpoint: Option<string>, summary: string, turnExists: bool) returns (ghost n: nat)
      requires Valid() && worker == Got(id)
      modifies this`rows, this`failures, this`worker, this`log, resetBackoff
      ensures Valid() && worker == Idle && Reaches(env, old(View()), n, View())
      ensures var row := RowAfter(env, old(View()), id, endpoint, summary);
        rows == if row.Some? then Insert(old(rows), id, row.value, turnExists) else old(rows)
      ensures failures ==
        if Blamed(env, old(View()), id, endpoint, summary) then
          var count := CountOf(old(failures), id) + 1;
          if count >= env.maxFailures then old(failures) - {id} else old(failures)[id := count]
        else if RowAfter(env, old(View()), id, endpoint, summary).Some? && summary != "" &&
                !Trivial(TextOf(env, id)) && turnExists
        then old(failures) - {id}
        else old(failures)
      ensures resetBackoff.View() ==
        if RowAfter(env, old(View()), id, endpoint, summary).Some? && summary != "" &&
           !Trivial(TextOf(env, id)) && turnExists
        then B.FRESH
        else old(resetBackoff.View())
    {
      hide Reaches, Trivial, Insert;
      ghost var s := View();
      ReachesSelf(env, s);
      var turn := TextOf(env, id);
      if turn.assistant == "" {
        PartialTrivial(turn);
        n := Extend(env, s, 0, View(), Throw);
        worker := Idle;
        return;
      }
      if Trivial(turn) {
        n := Extend(env, s, 0, View(), SkipTrivial(endpoint, turnExists));
        var _ := InsertRow(id, Row("", ModelOf(endpoint)), turnExists);
        worker := Idle;
        return;
      }
      n := Extend(env, s, 0, View(), Check(endpoint));
      if id in rows || endpoint.None? {
        worker := Idle;
        return;
      }
      worker := Checked(id, endpoint.value);
      if summary == "" {
        n := RecordFailure(id, endpoint.value, turnExists, s, n);
      } else {
        n := StoreSummary(id, endpoint.value, summary, turnExists, s, n);
      }
    }

    method PushTurns(found: seq<int>, ghost s: State, ghost n0: nat) returns (ghost n: nat)
      requires scan == Turns(found) && Reaches(env, s, n0, View())
      modifies this`queue, this`scan, this`pushed
      ensures Reaches(env, s, n, View()) && scan == Turns([]) && queue == old(queue) + TurnJobs(env, found)
    {
      hide Reaches;
      n := n0;
      for i := 0 to |found|
        invariant scan == Turns(found[i..]) && Reaches(env, s, n, View())
        invariant queue + TurnJobs(env, found[i..]) == old(queue) + TurnJobs(env, found)
      {
        hide TextOf;
        ghost var was := queue;
        TurnJobsNext(env, found[i..]);
        hide TurnJobs;
        n := PushTurn(found[i..], s, n);
        assert found[i..][1..] == found[i + 1..];
        assert queue + TurnJobs(env, found[i + 1..]) == was + TurnJobs(env, found[i..]);
      }
    }

    method PushTurn(found: seq<int>, ghost s: State, ghost n0: nat) returns (ghost n: nat)
      requires found != [] && scan == Turns(found) && Reaches(env, s, n0, View())
      modifies this`queue, this`scan, this`pushed
      ensures Reaches(env, s, n, View()) && scan == Turns(found[1..])
      ensures queue == old(queue) + if TextOf(env, found[0]).assistant == "" then [] else [L2Turn(found[0])]
    {
      hide Reaches;
      n := Extend(env, s, n0, View(), ScanPush);
      scan := Turns(found[1..]);
      if TextOf(env, found[0]).assistant == "" {
        return;
      }
      queue := queue + [L2Turn(found[0])];
      pushed := pushed + 1;
    }

    method PushEpisodes(idle: seq<string>, ghost s: State, ghost n0: nat) returns (ghost n: nat)
      requires scan == Episodes(idle) && Reaches(env, s, n0, View())
      modifies this`queue, this`scan, this`pushed
      ensures Reaches(env, s, n, View()) && scan == Episodes([]) && queue == old(queue) + EpisodeJobs(idle)
    {
      hide Reaches;
      n := n0;
      for i := 0 to |idle|
        invariant scan == Episodes(idle[i..]) && Reaches(env, s, n, View())
        invariant queue + EpisodeJobs(idle[i..]) == old(queue) + EpisodeJobs(idle)
      {
        n := Extend(env, s, n, View(), ScanPush);
        assert idle[i..][1..] == idle[i + 1..];
        queue := queue + [EpisodeClose(idle[i])];
        scan, pushed := Episodes(idle[i + 1..]), pushed + 1;
      }
    }

    /** The half of a scan that queues the turns found. */
    method ScanTurns(found: seq<int>, clock: nat, ghost s: State, ghost n0: nat) returns (ghost n: nat)
      requires scan == Rest && queue == [] && clock >= now && Reaches(env, s, n0, View())
      requires |found| <= Cap(env) && forall id <- found :: id in env.turns && id !in rows
      modifies this`queue, this`scan, this`pushed, this`now
      ensures scan == Turns([]) && now == clock && Reaches(env, s, n, View()) && queue == TurnJobs(env, found)
    {
      hide Reaches, TurnJobs;
      n := Extend(env, s, n0, View(), ScanBegin(found));
      scan, pushed := Turns(found), 0;
      n := PushTurns(found, s, n);
      n := Extend(env, s, n, View(), Tick(clock));
      now := clock;
    }

    /** The reset half of a scan: gated by the back-off, and charged to it only
        when it removed something. */
    method ResetAbandoned(abandoned: set<int>, clock: nat, ghost s: State, ghost n0: nat) returns (ghost n: nat)
      requires Valid() && scan == Turns([]) && now == clock && Reaches(env, s, n0, View())
      requires |abandoned| <= Cap(env) && forall id <- abandoned :: id in rows && Abandonable(rows[id])
      requires abandoned == {} ==> forall id <- rows :: !Abandonable(rows[id])
      modifies this`rows, this`scan, this`log, resetBackoff
      ensures Valid() && scan == Gate && Reaches(env, s, n, View())
      ensures rows == if clock >= old(resetBackoff.next) then old(rows) - abandoned else old(rows)
      ensures resetBackoff.View() ==
        if clock >= old(resetBackoff.next) && abandoned != {}
          then B.AfterFailure(old(resetBackoff.View()), BASE, MAX, clock)
        else old(resetBackoff.View())
    {
      hide Reaches;
      var due := resetBackoff.Due(clock);
      n := Extend(env, s, n0, View(), ScanGate);
      scan := if due then Resetting(clock) else Gate;
      if due {
        n := Extend(env, s, n, View(), ScanReset(abandoned));
        rows := rows - abandoned;
        scan := if abandoned == {} then Gate else Penalty(clock);
        if abandoned != {} {
          n := Extend(env, s, n, View(), ScanPenalty);
          resetBackoff.Failed(clock);
          log := log + [ResetAt(clock)];
          scan := Gate;
        }
      }
    }

    method CloseSessions(idle: seq<string>, ghost s: State, ghost n0: nat) returns (ghost n: nat)
      requires scan == Gate && Reaches(env, s, n0, View())
      modifies this`queue, this`scan, this`pushed
      ensures scan == Rest && Reaches(env, s, n, View()) && queue == old(queue) + EpisodeJobs(idle)
    {
      hide Reaches;
      n := Extend(env, s, n0, View(), ScanEpisodes(idle));
      scan := Episodes(idle);
      n := PushEpisodes(idle, s, n);
      n := Extend(env, s, n, View(), ScanEpisodes(idle));
      scan := Rest;
    }

    /** One catch-up scan, undisturbed: `found` are the newest turns without a
        row, `abandoned` the rows a reset picks, `idle` the sessions to close. */
    method EnqueueCatchUp(found: seq<int>, abandoned: set<int>, idle: seq<string>, clock: nat) returns (ghost n: nat)
      requires Valid() && scan == Rest && clock >= now
      requires |found| <= Cap(env) && forall id <- found :: id in env.turns && id !in rows
      requires |abandoned| <= Cap(env) && forall id <- abandoned :: id in rows && Abandonable(rows[id])
      requires abandoned == {} ==> forall id <- rows :: !Abandonable(rows[id])
      modifies this`rows, this`queue, this`scan, this`pushed, this`now, this`log, resetBackoff
      ensures Valid() && scan == Rest && Reaches(env, old(View()), n, View())
      ensures old(queue) != [] ==> View() == old(View())
      ensures old(queue) == [] ==>
        && rows == (if clock >= old(resetBackoff.next) then old(rows) - abandoned else old(rows))
        && queue == TurnJobs(env, found) + EpisodeJobs(idle)
        && resetBackoff.View() ==
             if clock >= old(resetBackoff.next) && abandoned != {}
             then B.AfterFailure(old(resetBackoff.View()), BASE, MAX, clock)
             else old(resetBackoff.View())
    {
      hide Reaches, Trivial, TurnJobs, EpisodeJobs;
      ghost var s := View();
      n := 0;
      ReachesSelf(env, s);
      if queue != [] { return; }
      n := ScanTurns(found, clock, s, n);
      n := ResetAbandoned(abandoned, clock, s, n);
      n := CloseSessions(idle, s, n);
    }
  }
}
