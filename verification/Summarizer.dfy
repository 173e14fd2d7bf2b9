/** The summarizer service as interleaved steps: live captures, the catch-up
    scan, one worker, the clock and restarts. One step is one critical section
    or one backend call. */
module Summarizer {
  import opened Wrappers
  import opened Backoff
  import opened Strippers

  const QUEUE_LIMIT := 1000
  const BASE: nat := 300
  const MAX: nat := 21600
  const BAD := "bad"
  const SKIPPED := "(skipped)"

  datatype Turn = Turn(user: string, assistant: string)

  /** A turn_summaries row. Empty text marks a turn as done without a summary. */
  datatype Row = Row(text: string, model: string)

  datatype Job = L2Turn(id: int) | EpisodeClose(guid: string)

  datatype Worker =
    | Idle
    | Got(id: int)
    | Checked(id: int, model: string)
    | Summarized(id: int, text: string, model: string)
    | Exhausted(id: int)
    | Stamped(id: int)
    | Finalized(id: int)

  datatype Scan =
    | Rest
    | Turns(left: seq<int>)
    | Gate
    | Resetting(now: nat)
    | Penalty(now: nat)
    | Episodes(guids: seq<string>)

  /** What happened, as the properties speak of it. */
  datatype Event =
    | Failed(id: int, model: string)
    | Abandoned(id: int)
    | Succeeded(id: int)
    | ResetAt(now: nat)
    | Restarted

  /** Settings and texts that do not change during a run. */
  datatype Env = Env(turns: map<int, Turn>, maxFailures: int, batch: int)

  datatype State = State(
    rows: map<int, Row>,
    queue: seq<Job>,
    failures: map<int, nat>,
    worker: Worker,
    scan: Scan,
    pushed: nat,
    backoff: Schedule,
    now: nat,
    log: seq<Event>)

  function Cap(env: Env): (c: int)
    ensures c >= 1
  {
    if env.batch < 1 then 1 else env.batch
  }

  /** Too short to summarize, counting only what the human typed. */
  predicate Trivial(t: Turn) {
    var user := if IsSystemInjectedTurn(t.user) then "" else t.user;
    |user| + |t.assistant| < 80 || |t.assistant| < 20
  }

  /** The characters a turn is judged by: an injected user side counts as empty. */
  function Typed(t: Turn): nat {
    if IsSystemInjectedTurn(t.user) then 0 else |t.user|
  }

  /** A turn is worth a summary exactly from 20 characters of answer and 80 together,
      so more text of either side never takes a summary away. */
  lemma TrivialExactly(t: Turn, longer: Turn)
    ensures Trivial(t) <==> Typed(t) + |t.assistant| <= 79 || |t.assistant| <= 19
    ensures IsSystemInjectedTurn(t.user) ==> Typed(t) == 0
    ensures !IsSystemInjectedTurn(t.user) ==> Typed(t) == |t.user|
    ensures Typed(t) <= Typed(longer) && |t.assistant| <= |longer.assistant| && !Trivial(t) ==> !Trivial(longer)
  {
  }

  datatype Step =
    | Enqueue(id: int)
    | Pop
    | SkipTrivial(endpoint: Option<string>, stored: bool)
    | Check(endpoint: Option<string>)
    | Infer(text: string)
    | Throw
    | Stamp(stored: bool)
    | EraseStamped
    | Finalize(stored: bool)
    | Settle
    | ScanBegin(found: seq<int>)
    | ScanPush
    | ScanGate
    | ScanReset(ids: set<int>)
    | ScanPenalty
    | ScanEpisodes(guids: seq<string>)
    | Tick(now: nat)
    | Restart

  function TextOf(env: Env, id: int): Turn {
    if id in env.turns then env.turns[id] else Turn("", "")
  }

  predicate Abandonable(r: Row) {
    r.model == BAD && r.text == ""
  }

  predicate Enabled(env: Env, s: State, e: Step) {
    match e
    case Enqueue(id) => TextOf(env, id).assistant != ""
    case Pop => s.worker.Idle? && s.queue != []
    case SkipTrivial(_, _) => s.worker.Got? && Trivial(TextOf(env, s.worker.id))
    case Check(_) => s.worker.Got? && !Trivial(TextOf(env, s.worker.id))
    case Infer(_) => s.worker.Checked?
    case Throw => s.worker.Got? || s.worker.Checked? || s.worker.Summarized?
    case Stamp(_) => s.worker.Exhausted?
    case EraseStamped => s.worker.Stamped?
    case Finalize(_) => s.worker.Summarized?
    case Settle => s.worker.Finalized?
    case ScanBegin(found) =>
      s.scan.Rest? && s.queue == [] && |found| <= Cap(env) && forall id <- found :: id in env.turns && id !in s.rows
    case ScanPush => (s.scan.Turns? && s.scan.left != []) || (s.scan.Episodes? && s.scan.guids != [])
    case ScanGate => s.scan.Turns? && s.scan.left == []
    case ScanReset(ids) =>
      s.scan.Resetting? && |ids| <= Cap(env) && (forall id <- ids :: id in s.rows && Abandonable(s.rows[id])) &&
      (ids == {} ==> forall id <- s.rows :: !Abandonable(s.rows[id]))
    case ScanPenalty => s.scan.Penalty?
    case ScanEpisodes(_) => s.scan.Gate? || (s.scan.Episodes? && s.scan.guids == [])
    case Tick(now) => now >= s.now
    case Restart => true
  }

  /** A plain insert: refused when the turn is gone or already has a row. */
  function Insert(rows: map<int, Row>, id: int, r: Row, stored: bool): map<int, Row> {
    if stored && id !in rows then rows[id := r] else rows
  }

  function CountOf(failures: map<int, nat>, id: int): nat {
    if id in failures then failures[id] else 0
  }

  function Apply(env: Env, s: State, e: Step): State
    requires Enabled(env, s, e)
  {
    match e
    case Enqueue(id) => if |s.queue| >= QUEUE_LIMIT then s else s.(queue := s.queue + [L2Turn(id)])
    case Pop =>
      s.(queue := s.queue[1..], worker := if s.queue[0].L2Turn? then Got(s.queue[0].id) else Idle)
    case SkipTrivial(endpoint, stored) =>
      var model := if endpoint.Some? && endpoint.value != "" then endpoint.value else SKIPPED;
      s.(rows := Insert(s.rows, s.worker.id, Row("", model), stored), worker := Idle)
    case Check(endpoint) =>
      if s.worker.id in s.rows || endpoint.None? then s.(worker := Idle)
      else s.(worker := Checked(s.worker.id, endpoint.value))
    case Infer(text) =>
      if text == "" then AfterFailedJob(env, s)
      else s.(worker := Summarized(s.worker.id, text, s.worker.model))
    case Throw => s.(worker := Idle)
    case Stamp(stored) =>
      s.(rows := Insert(s.rows, s.worker.id, Row("", BAD), stored), log := s.log + [Abandoned(s.worker.id)],
         worker := Stamped(s.worker.id))
    case EraseStamped => s.(failures := s.failures - {s.worker.id}, worker := Idle)
    case Finalize(stored) =>
      var rows := Insert(s.rows, s.worker.id, Row(s.worker.text, s.worker.model), stored);
      s.(rows := rows, worker := if stored && s.worker.id !in s.rows then Finalized(s.worker.id) else Idle)
    case Settle =>
      s.(failures := s.failures - {s.worker.id}, backoff := FRESH, log := s.log + [Succeeded(s.worker.id)],
         worker := Idle)
    case ScanBegin(found) => s.(scan := Turns(found), pushed := 0)
    case ScanPush => Push(env, s)
    case ScanGate => if s.now >= s.backoff.next then s.(scan := Resetting(s.now)) else s.(scan := Gate)
    case ScanReset(ids) =>
      s.(rows := s.rows - ids, scan := if ids == {} then Gate else Penalty(s.scan.now))
    case ScanPenalty =>
      s.(backoff := AfterFailure(s.backoff, BASE, MAX, s.scan.now), log := s.log + [ResetAt(s.scan.now)], scan := Gate)
    case ScanEpisodes(guids) => if s.scan.Gate? then s.(scan := Episodes(guids)) else s.(scan := Rest)
    case Tick(now) => s.(now := now)
    case Restart =>
      s.(queue := [], failures := map[], worker := Idle, scan := Rest, pushed := 0, backoff := FRESH,
         log := s.log + [Restarted])
  }

  function AfterFailedJob(env: Env, s: State): State
    requires s.worker.Checked?
  {
    if env.maxFailures <= 0 then s.(worker := Idle)
    else
      var id, n := s.worker.id, CountOf(s.failures, s.worker.id) + 1;
      s.(failures := s.failures[id := n], log := s.log + [Failed(id, s.worker.model)],
         worker := if n >= env.maxFailures then Exhausted(id) else Idle)
  }

  function Push(env: Env, s: State): State
    requires Enabled(env, s, ScanPush)
  {
    if s.scan.Episodes? then
      s.(queue := s.queue + [EpisodeClose(s.scan.guids[0])], scan := Episodes(s.scan.guids[1..]),
         pushed := s.pushed + 1)
    else
      var id := s.scan.left[0];
      if TextOf(env, id).assistant == "" then s.(scan := Turns(s.scan.left[1..]))
      else s.(queue := s.queue + [L2Turn(id)], scan := Turns(s.scan.left[1..]), pushed := s.pushed + 1)
  }

  /** The queue is first in, first out: a job leaves from the front and goes to the
      worker, new ones join one by one at the back, and only a restart empties it. */
  lemma QueueFifo(env: Env, s: State, e: Step)
    requires Enabled(env, s, e)
    ensures var t := Apply(env, s, e);
      && (e.Pop? ==> s.queue == [s.queue[0]] + t.queue &&
                     t.worker == if s.queue[0].L2Turn? then Got(s.queue[0].id) else Idle)
      && (e.Restart? ==> t.queue == [])
      && (e.Enqueue? || e.ScanPush? ==> s.queue <= t.queue && |t.queue| <= |s.queue| + 1)
      && (!e.Pop? && !e.Restart? && !e.Enqueue? && !e.ScanPush? ==> t.queue == s.queue)
  {
    hide Trivial, Insert;
  }

  // ----- What the log says -----

  /** Failures of a turn since it last succeeded or was given up, or since the
      service started. */
  function FailuresSince(log: seq<Event>, id: int): nat {
    if log == [] then 0
    else
      var e, before := log[|log| - 1], FailuresSince(log[..|log| - 1], id);
      if e == Abandoned(id) || e == Succeeded(id) || e == Restarted then 0
      else if e.Failed? && e.id == id then before + 1
      else before
  }

  /** Resets that did something since a summary last succeeded. */
  function ResetsSince(log: seq<Event>): nat {
    if log == [] then 0
    else
      var e, before := log[|log| - 1], ResetsSince(log[..|log| - 1]);
      if e.Succeeded? || e.Restarted? then 0 else if e.ResetAt? then before + 1 else before
  }

  /** The back-off schedule the log leads to. */
  function Replay(log: seq<Event>): Schedule {
    if log == [] then FRESH
    else
      var e, before := log[|log| - 1], Replay(log[..|log| - 1]);
      if e.Succeeded? || e.Restarted? then FRESH
      else if e.ResetAt? then AfterFailure(before, BASE, MAX, e.now)
      else before
  }

  /** A turn is given up at exactly the configured number of failures, and a
      reset happens only when the schedule allows one. */
  ghost predicate LogOk(env: Env, log: seq<Event>) {
    forall k | 0 <= k < |log| ::
      && (log[k].Abandoned? ==> FailuresSince(log[..k], log[k].id) == env.maxFailures)
      && (log[k].ResetAt? ==> log[k].now >= Replay(log[..k]).next)
  }

  ghost predicate Inv(env: Env, s: State) {
    && |s.queue| <= QUEUE_LIMIT + s.pushed
    && (s.worker.Checked? || s.worker.Summarized? || s.worker.Exhausted? ==> s.worker.id !in s.rows)
    && (s.worker.Summarized? ==> s.worker.text != "")
    && (forall id <- s.failures :: id in s.rows ==> (s.worker.Stamped? || s.worker.Finalized?) && s.worker.id == id)
    && (forall id <- s.failures :: 0 < s.failures[id] <= env.maxFailures)
    && (forall id <- s.failures ::
          s.failures[id] == env.maxFailures ==> s.worker == Exhausted(id) || s.worker == Stamped(id))
    && (forall id <- s.failures :: !Trivial(TextOf(env, id)))
    && (s.worker.Checked? || s.worker.Summarized? || s.worker.Exhausted? ==>
          !Trivial(TextOf(env, s.worker.id)))
    && (s.worker.Stamped? ==> FailuresSince(s.log, s.worker.id) == 0)
    && (s.worker.Exhausted? ==> s.worker.id in s.failures && s.failures[s.worker.id] == env.maxFailures)
    && (forall id :: CountOf(s.failures, id) == FailuresSince(s.log, id) || s.worker == Stamped(id))
    && LogOk(env, s.log)
    && s.backoff == Replay(s.log)
    && (s.scan.Resetting? || s.scan.Penalty? ==> s.scan.now >= s.backoff.next)
  }

  lemma LogSnoc(log: seq<Event>, e: Event, id: int)
    ensures (log + [e])[..|log|] == log
    ensures FailuresSince(log + [e], id) ==
      if e == Abandoned(id) || e == Succeeded(id) || e == Restarted then 0
      else FailuresSince(log, id) + if e.Failed? && e.id == id then 1 else 0
    ensures Replay(log + [e]) ==
      if e.Succeeded? || e.Restarted? then FRESH
      else if e.ResetAt? then AfterFailure(Replay(log), BASE, MAX, e.now) else Replay(log)
  {
    assert (log + [e])[..|log|] == log;
  }

  lemma LogOkSnoc(env: Env, log: seq<Event>, e: Event)
    requires LogOk(env, log)
    requires e.Abandoned? ==> FailuresSince(log, e.id) == env.maxFailures
    requires e.ResetAt? ==> e.now >= Replay(log).next
    ensures LogOk(env, log + [e])
  {
    hide FailuresSince, Replay;
    var more := log + [e];
    forall k | 0 <= k < |more|
      ensures more[k].Abandoned? ==> FailuresSince(more[..k], more[k].id) == env.maxFailures
      ensures more[k].ResetAt? ==> more[k].now >= Replay(more[..k]).next
    {
      assert more[..k] == log[..k];
      assert log[..|log|] == log;
    }
  }

  lemma QueueInv(env: Env, s: State, e: Step)
    requires e.Enqueue? || e.Pop? || e.Tick?
    requires Inv(env, s) && Enabled(env, s, e)
    ensures Inv(env, Apply(env, s, e))
  {
    hide FailuresSince, Replay, LogOk, Trivial;
  }

  lemma ScanInv(env: Env, s: State, e: Step)
    requires e.ScanBegin? || e.ScanPush?
    requires Inv(env, s) && Enabled(env, s, e)
    ensures Inv(env, Apply(env, s, e))
  {
    hide FailuresSince, Replay, LogOk, Trivial;
  }

  lemma GateInv(env: Env, s: State, e: Step)
    requires e.ScanGate? || e.ScanEpisodes?
    requires Inv(env, s) && Enabled(env, s, e)
    ensures Inv(env, Apply(env, s, e))
  {
    hide FailuresSince, Replay, LogOk, Trivial;
  }

  lemma WorkerInv(env: Env, s: State, e: Step)
    requires e.SkipTrivial? || e.Check? || e.Throw? || e.Finalize?
    requires Inv(env, s) && Enabled(env, s, e)
    ensures Inv(env, Apply(env, s, e))
  {
    hide FailuresSince, Replay, LogOk, Trivial;
  }

  lemma InferInv(env: Env, s: State, text: string)
    requires Inv(env, s) && Enabled(env, s, Infer(text))
    ensures Inv(env, Apply(env, s, Infer(text)))
  {
    hide FailuresSince, Replay, LogOk, Trivial;
    var e := Failed(s.worker.id, s.worker.model);
    LogOkSnoc(env, s.log, e);
    LogSnoc(s.log, e, s.worker.id);
    forall id ensures FailuresSince(s.log + [e], id) == FailuresSince(s.log, id) + if e.id == id then 1 else 0 {
      LogSnoc(s.log, e, id);
    }
  }

  lemma StampInv(env: Env, s: State, stored: bool)
    requires Inv(env, s) && Enabled(env, s, Stamp(stored))
    ensures Inv(env, Apply(env, s, Stamp(stored)))
  {
    hide FailuresSince, Replay, LogOk, Trivial;
    var e := Abandoned(s.worker.id);
    LogOkSnoc(env, s.log, e);
    LogSnoc(s.log, e, s.worker.id);
    forall id ensures id != e.id ==> FailuresSince(s.log + [e], id) == FailuresSince(s.log, id) {
      LogSnoc(s.log, e, id);
    }
  }

  lemma EraseInv(env: Env, s: State, e: Step)
    requires e.EraseStamped? || e.ScanReset?
    requires Inv(env, s) && Enabled(env, s, e)
    ensures Inv(env, Apply(env, s, e))
  {
    hide FailuresSince, Replay, LogOk, Trivial;
  }

  lemma SettleInv(env: Env, s: State)
    requires Inv(env, s) && Enabled(env, s, Settle)
    ensures Inv(env, Apply(env, s, Settle))
  {
    hide FailuresSince, Replay, LogOk, Trivial;
    var e := Succeeded(s.worker.id);
    LogOkSnoc(env, s.log, e);
    LogSnoc(s.log, e, s.worker.id);
    forall id ensures FailuresSince(s.log + [e], id) == if e.id == id then 0 else FailuresSince(s.log, id) {
      LogSnoc(s.log, e, id);
    }
  }

  lemma PenaltyInv(env: Env, s: State)
    requires Inv(env, s) && Enabled(env, s, ScanPenalty)
    ensures Inv(env, Apply(env, s, ScanPenalty))
  {
    hide FailuresSince, Replay, LogOk, Trivial, AfterFailure;
    var e := ResetAt(s.scan.now);
    LogOkSnoc(env, s.log, e);
    LogSnoc(s.log, e, 0);
    forall id ensures FailuresSince(s.log + [e], id) == FailuresSince(s.log, id) {
      LogSnoc(s.log, e, id);
    }
  }

  lemma RestartInv(env: Env, s: State)
    requires Inv(env, s)
    ensures Inv(env, Apply(env, s, Restart))
  {
    hide FailuresSince, Replay, LogOk, Trivial;
    LogOkSnoc(env, s.log, Restarted);
    LogSnoc(s.log, Restarted, 0);
    forall id ensures FailuresSince(s.log + [Restarted], id) == 0 {
      LogSnoc(s.log, Restarted, id);
    }
  }

  lemma StepInv(env: Env, s: State, e: Step)
    requires Inv(env, s) && Enabled(env, s, e)
    ensures Inv(env, Apply(env, s, e))
  {
    hide Inv, Enabled, Apply;
    match e
    case Infer(text) => InferInv(env, s, text);
    case Stamp(stored) => StampInv(env, s, stored);
    case EraseStamped => EraseInv(env, s, e);
    case ScanReset(_) => EraseInv(env, s, e);
    case Settle => SettleInv(env, s);
    case ScanPenalty => PenaltyInv(env, s);
    case Restart => RestartInv(env, s);
    case SkipTrivial(_, _) => WorkerInv(env, s, e);
    case Check(_) => WorkerInv(env, s, e);
    case Throw => WorkerInv(env, s, e);
    case Finalize(_) => WorkerInv(env, s, e);
    case Enqueue(_) => QueueInv(env, s, e);
    case Pop => QueueInv(env, s, e);
    case Tick(_) => QueueInv(env, s, e);
    case ScanBegin(_) => ScanInv(env, s, e);
    case ScanPush => ScanInv(env, s, e);
    case _ => GateInv(env, s, e);
  }

  // ----- Runs -----

  ghost predicate Init(s: State) {
    s == State(s.rows, [], map[], Idle, Rest, 0, FRESH, 0, [])
  }

  ghost predicate Run(env: Env, states: seq<State>, steps: seq<Step>) {
    && |states| == |steps| + 1
    && Init(states[0])
    && forall i | 0 <= i < |steps| ::
         Enabled(env, states[i], steps[i]) && states[i + 1] == Apply(env, states[i], steps[i])
  }

  lemma {:induction false} RunInv(env: Env, states: seq<State>, steps: seq<Step>, i: nat)
    requires Run(env, states, steps) && i < |states|
    ensures Inv(env, states[i])
  {
    if i > 0 {
      RunInv(env, states, steps, i - 1);
      hide Inv, Enabled, Apply;
      StepInv(env, states[i - 1], steps[i - 1]);
    }
  }

  /** A summary is inserted only for a turn that has no row. */
  lemma FinalizeOnlyWithoutRow(env: Env, states: seq<State>, steps: seq<Step>)
    requires Run(env, states, steps)
    ensures forall i | 0 <= i < |steps| && steps[i].Finalize? ::
      states[i].worker.id !in states[i].rows && states[i].worker.text != ""
  {
    forall i | 0 <= i < |steps| && steps[i].Finalize?
      ensures states[i].worker.id !in states[i].rows && states[i].worker.text != ""
    {
      RunInv(env, states, steps, i);
      assert Enabled(env, states[i], steps[i]);
    }
  }

  /** A turn with a row carries no failure count, but for the instant between
      the worker's insert and its erase; no count reaches the limit unless the
      worker is about to give the turn up. */
  lemma CountsBelowLimit(env: Env, states: seq<State>, steps: seq<Step>)
    requires Run(env, states, steps)
    ensures forall s <- states, id <- s.failures ::
      s.worker.Idle? ==> id !in s.rows && 0 < s.failures[id] < env.maxFailures
  {
    forall s <- states, id <- s.failures | s.worker.Idle?
      ensures id !in s.rows && 0 < s.failures[id] < env.maxFailures
    {
      var i :| 0 <= i < |states| && states[i] == s;
      RunInv(env, states, steps, i);
    }
  }

  /** A turn is stamped bad after exactly the configured number of failures since
      it last succeeded, was last given up, or the service started. */
  lemma AbandonedExactly(env: Env, states: seq<State>, steps: seq<Step>)
    requires Run(env, states, steps)
    ensures forall i | 0 <= i < |steps| && steps[i].Stamp? ::
      FailuresSince(states[i].log, states[i].worker.id) == env.maxFailures > 0
  {
    forall i | 0 <= i < |steps| && steps[i].Stamp?
      ensures FailuresSince(states[i].log, states[i].worker.id) == env.maxFailures > 0
    {
      RunInv(env, states, steps, i);
      var s := states[i];
      assert Enabled(env, s, steps[i]);
      assert CountOf(s.failures, s.worker.id) == FailuresSince(s.log, s.worker.id);
    }
  }

  // ----- Who is blamed -----

  /** Step k is an inference for turn id that gave nothing, asked of the endpoint the worker found when it checked the
      turn at step j. */
  ghost predicate ChargedFrom(states: seq<State>, steps: seq<Step>, id: int, j: nat, k: nat)
    requires |states| == |steps| + 1
  {
    j < k < |steps| && steps[k] == Infer("") && states[k].worker.Checked? && states[k].worker.id == id &&
    steps[j] == Check(Some(states[k].worker.model)) && states[j].worker == Got(id) &&
    forall m | j < m <= k :: states[m].worker == states[k].worker
  }

  ghost predicate Charged(states: seq<State>, steps: seq<Step>, id: int, k: nat)
    requires |states| == |steps| + 1
  {
    exists j: nat :: ChargedFrom(states, steps, id, j, k)
  }

  /** The steps after which a turn's failures no longer count. */
  ghost predicate Clears(states: seq<State>, steps: seq<Step>, id: int, m: nat)
    requires |states| == |steps| + 1 && m < |steps|
  {
    steps[m] == Restart ||
    (steps[m].Stamp? && states[m].worker == Exhausted(id)) || (steps[m] == Settle && states[m].worker == Finalized(id))
  }

  /** `charges` are the steps behind the failures counted for a turn in state i. */
  ghost predicate Blame(states: seq<State>, steps: seq<Step>, id: int, i: nat, charges: seq<nat>)
    requires |states| == |steps| + 1 && i < |states|
  {
    && |charges| == FailuresSince(states[i].log, id)
    && (forall x, y | 0 <= x < y < |charges| :: charges[x] < charges[y])
    && (forall x | 0 <= x < |charges| :: charges[x] < i && Charged(states, steps, id, charges[x]))
    && (charges != [] ==> forall m | charges[0] <= m < i :: !Clears(states, steps, id, m))
  }

  lemma {:induction false} CheckedFrom(env: Env, states: seq<State>, steps: seq<Step>, k: nat) returns (j: nat)
    requires Run(env, states, steps) && k < |states| && states[k].worker.Checked?
    ensures j < k && steps[j] == Check(Some(states[k].worker.model)) && states[j].worker == Got(states[k].worker.id)
    ensures forall m | j < m <= k :: states[m].worker == states[k].worker
  {
    hide Enabled, Apply;
    if k > 0 {
      RunStep(env, states, steps, k - 1);
      hide Run;
      CheckedStep(env, states[k - 1], steps[k - 1]);
      if steps[k - 1].Check? {
        j := k - 1;
      } else {
        j := CheckedFrom(env, states, steps, k - 1);
      }
    }
  }

  lemma RunStep(env: Env, states: seq<State>, steps: seq<Step>, k: nat)
    requires Run(env, states, steps) && k < |steps|
    ensures Enabled(env, states[k], steps[k]) && states[k + 1] == Apply(env, states[k], steps[k])
  {
    hide Enabled, Apply;
  }

  /** The worker comes to have checked a turn by a check that finds an endpoint. */
  lemma CheckedStep(env: Env, s: State, e: Step)
    requires Enabled(env, s, e) && Apply(env, s, e).worker.Checked?
    ensures var t := Apply(env, s, e);
      if e.Check? then e == Check(Some(t.worker.model)) && s.worker == Got(t.worker.id) else s.worker == t.worker
  {
    hide Trivial, Insert, TextOf;
  }

  /** What a step does to the failures counted for a turn. */
  lemma CountStep(env: Env, s: State, e: Step, id: int)
    requires Enabled(env, s, e)
    ensures var t, before := Apply(env, s, e), FailuresSince(s.log, id);
      FailuresSince(t.log, id) ==
        if e == Restart || (e.Stamp? && s.worker == Exhausted(id)) || (e == Settle && s.worker == Finalized(id)) then 0
        else if e == Infer("") && s.worker.id == id && env.maxFailures > 0 then before + 1
        else before
  {
    hide Trivial, Insert, FailuresSince, Replay;
    var t := Apply(env, s, e);
    if |t.log| == |s.log| + 1 {
      assert t.log == s.log + [t.log[|s.log|]];
      LogSnoc(s.log, t.log[|s.log|], id);
    } else {
      assert t.log == s.log;
    }
  }

  lemma {:induction false} BlameAll(env: Env, states: seq<State>, steps: seq<Step>, id: int, i: nat)
    returns (charges: seq<nat>)
    requires Run(env, states, steps) && i < |states|
    ensures Blame(states, steps, id, i, charges)
  {
    hide Enabled, Apply, FailuresSince, Charged;
    charges := [];
    if i == 0 {
      NoFailures(id);
    } else {
      charges := BlameAll(env, states, steps, id, i - 1);
      var s, e := states[i - 1], steps[i - 1];
      assert Enabled(env, s, e) && states[i] == Apply(env, s, e);
      CountStep(env, s, e, id);
      if Clears(states, steps, id, i - 1) {
        charges := [];
      } else if e == Infer("") && InferredFor(env, s) == id && env.maxFailures > 0 {
        var j := CheckedFrom(env, states, steps, i - 1);
        assert ChargedFrom(states, steps, id, j, i - 1);
        assert Charged(states, steps, id, i - 1) by { ChargedBy(states, steps, id, j, i - 1); }
        charges := charges + [i - 1];
      }
    }
  }

  function InferredFor(env: Env, s: State): (id: int)
    requires Enabled(env, s, Infer(""))
    ensures s.worker.Checked? && id == s.worker.id
  {
    s.worker.id
  }

  lemma ChargedBy(states: seq<State>, steps: seq<Step>, id: int, j: nat, k: nat)
    requires |states| == |steps| + 1 && ChargedFrom(states, steps, id, j, k)
    ensures Charged(states, steps, id, k)
  {
  }

  lemma NoFailures(id: int)
    ensures FailuresSince([], id) == 0
  {
  }

  /** No endpoint, no blame: behind every turn stamped bad stand exactly the configured number of inferences that gave
      nothing, each asked of an endpoint found for that turn, with no success, abandonment or restart since the
      first. */
  lemma NoEndpointNoBlame(env: Env, states: seq<State>, steps: seq<Step>, i: nat) returns (charges: seq<nat>)
    requires Run(env, states, steps) && i < |steps| && steps[i].Stamp?
    ensures states[i].worker.Exhausted? && Blame(states, steps, states[i].worker.id, i, charges)
    ensures |charges| == env.maxFailures > 0
  {
    hide Apply;
    assert Enabled(env, states[i], steps[i]);
    charges := BlameAll(env, states, steps, states[i].worker.id, i);
    AbandonedExactly(env, states, steps);
  }

  lemma RowStays(env: Env, s: State, e: Step, id: int)
    requires Enabled(env, s, e) && id in s.rows && !Abandonable(s.rows[id])
    ensures var t := Apply(env, s, e); id in t.rows && t.rows[id] == s.rows[id]
  {
    hide Trivial;
  }

  /** Real summaries, and markers of turns done without one, are never removed
      or changed. */
  lemma {:induction false} SummariesStay(env: Env, states: seq<State>, steps: seq<Step>, i: nat, j: nat, id: int)
    requires Run(env, states, steps) && i <= j < |states|
    requires id in states[i].rows && !Abandonable(states[i].rows[id])
    ensures id in states[j].rows && states[j].rows[id] == states[i].rows[id]
    decreases j
  {
    hide Apply, Enabled;
    if i < j {
      RunStep(env, states, steps, j - 1);
      SummariesStay(env, states, steps, i, j - 1, id);
      hide Run;
      RowStays(env, states[j - 1], steps[j - 1], id);
    }
  }

  /** The queue holds at most the live limit and what the latest scan added. */
  lemma QueueBounded(env: Env, states: seq<State>, steps: seq<Step>)
    requires Run(env, states, steps)
    ensures forall s <- states :: |s.queue| <= QUEUE_LIMIT + s.pushed
  {
    forall s <- states ensures |s.queue| <= QUEUE_LIMIT + s.pushed {
      var i :| 0 <= i < |states| && states[i] == s;
      RunInv(env, states, steps, i);
    }
  }

  /** `t` is `n` steps from `s`. */
  ghost predicate Reaches(env: Env, s: State, n: nat, t: State)
    decreases n, 1
  {
    if n == 0 then s == t else exists u, e :: ReachesVia(env, s, n, u, e, t)
  }

  ghost predicate ReachesVia(env: Env, s: State, n: nat, u: State, e: Step, t: State)
    requires n > 0
    decreases n, 0
  {
    Enabled(env, u, e) && t == Apply(env, u, e) && Reaches(env, s, n - 1, u)
  }

  lemma Extend(env: Env, s: State, n: nat, u: State, e: Step) returns (n': nat)
    requires Reaches(env, s, n, u) && Enabled(env, u, e)
    ensures Reaches(env, s, n', Apply(env, u, e))
  {
    n' := n + 1;
    assert ReachesVia(env, s, n', u, e, Apply(env, u, e));
  }

  // ----- Spacing of the resets -----

  predicate Quiet(log: seq<Event>, i: nat, j: nat) {
    j <= |log| && forall k | i < k < j :: !log[k].Succeeded? && !log[k].Restarted? && !log[k].ResetAt?
  }

  lemma {:induction false} DelayIsWait(log: seq<Event>)
    ensures Replay(log).delay == Wait(BASE, MAX, ResetsSince(log))
  {
    if log != [] {
      hide AfterFailure, Wait;
      var before := log[..|log| - 1];
      DelayIsWait(before);
      var e := log[|log| - 1];
      NoWait(BASE, MAX);
      if e.ResetAt? { WaitDoubles(BASE, MAX, ResetsSince(before), e.now, Replay(before).next); }
    } else {
      NoWait(BASE, MAX);
    }
  }

  lemma NoWait(base: nat, max: nat)
    ensures Wait(base, max, 0) == 0
  {
  }

  lemma {:induction false} NextAfterReset(log: seq<Event>, i: nat, j: nat)
    requires i < j <= |log| && log[i].ResetAt? && Quiet(log, i, j)
    ensures Replay(log[..j]).next == log[i].now + Wait(BASE, MAX, ResetsSince(log[..i + 1]))
    decreases j
  {
    hide AfterFailure, Wait;
    assert log[..j][..j - 1] == log[..j - 1];
    if j > i + 1 {
      NextAfterReset(log, i, j - 1);
      assert log[..j][j - 1] == log[j - 1];
    } else {
      DelayIsWait(log[..i]);
      WaitDoubles(BASE, MAX, ResetsSince(log[..i]), log[i].now, Replay(log[..i]).next);
    }
  }

  /** Two resets with no success between them are at least the doubled and
      capped wait apart. */
  lemma ResetsSpaced(env: Env, states: seq<State>, steps: seq<Step>, i: nat, j: nat)
    requires Run(env, states, steps)
    requires var log := states[|states| - 1].log;
      i < j < |log| && log[i].ResetAt? && log[j].ResetAt? && Quiet(log, i, j)
    ensures var log := states[|states| - 1].log;
      log[j].now >= log[i].now + Wait(BASE, MAX, ResetsSince(log[..i + 1])) && ResetsSince(log[..i + 1]) > 0
  {
    var log := states[|states| - 1].log;
    RunInv(env, states, steps, |states| - 1);
    NextAfterReset(log, i, j);
    assert log[..i + 1][..i] == log[..i];
  }
}
