/** The embedding pool: threads that share one fetch-and-add counter and write disjoint slots of one array. */
module WorkerPool {
  import opened Wrappers

  type Outcome = Option<seq<real>>

  datatype Env = Env(texts: seq<string>, maxWorkers: int)

  /** What one embedding call may give: nothing for the empty text, and never an empty vector. */
  predicate Possible(text: string, outcome: Outcome) {
    outcome.Some? ==> text != "" && outcome.value != []
  }

  function Min(a: nat, b: nat): nat {
    if a <= b then a else b
  }

  function Workers(env: Env): nat {
    Min(if env.maxWorkers < 1 then 1 else env.maxWorkers, |env.texts|)
  }

  datatype Worker = Idle | Holding(index: nat) | Called(index: nat, outcome: Outcome) | Exited
  datatype Take = Take(worker: nat, index: nat)
  datatype Call = Call(worker: nat, index: nat, outcome: Outcome)

  /** `takes` logs the indices the workers kept, `calls` the embedding calls, both in order. */
  datatype State = State(
    next: nat,
    workers: seq<Worker>,
    joined: nat,
    returned: bool,
    results: seq<Outcome>,
    takes: seq<Take>,
    calls: seq<Call>)

  datatype Step =
    | Spawn
    | Fetch(worker: nat)
    | Embed(worker: nat, outcome: Outcome)
    | Store(worker: nat)
    | Join
    | Return

  function NoOutcomes(n: nat): (s: seq<Outcome>)
    ensures |s| == n && forall i | 0 <= i < n :: s[i] == None
  {
    if n == 0 then [] else NoOutcomes(n - 1) + [None]
  }

  function Start(env: Env): State {
    State(0, [], 0, false, NoOutcomes(|env.texts|), [], [])
  }

  predicate Enabled(env: Env, s: State, e: Step) {
    !s.returned &&
    match e
    case Spawn => |s.workers| < Workers(env)
    case Fetch(w) => w < |s.workers| && s.workers[w] == Idle
    case Embed(w, v) =>
      w < |s.workers| && s.workers[w].Holding? && s.workers[w].index < |env.texts| &&
      Possible(env.texts[s.workers[w].index], v)
    case Store(w) => w < |s.workers| && s.workers[w].Called? && s.workers[w].index < |s.results|
    case Join => |s.workers| == Workers(env) && s.joined < |s.workers| && s.workers[s.joined] == Exited
    case Return => |s.workers| == Workers(env) && s.joined == |s.workers|
  }

  function Apply(env: Env, s: State, e: Step): State
    requires Enabled(env, s, e)
  {
    match e
    case Spawn => s.(workers := s.workers + [Idle])
    case Fetch(w) =>
      if s.next >= |env.texts| then s.(next := s.next + 1, workers := s.workers[w := Exited])
      else s.(next := s.next + 1, workers := s.workers[w := Holding(s.next)], takes := s.takes + [Take(w, s.next)])
    case Embed(w, v) =>
      var i := s.workers[w].index;
      s.(workers := s.workers[w := Called(i, v)], calls := s.calls + [Call(w, i, v)])
    case Store(w) =>
      s.(workers := s.workers[w := Idle], results := s.results[s.workers[w].index := s.workers[w].outcome])
    case Join => s.(joined := s.joined + 1)
    case Return => s.(returned := true)
  }

  // ----- What every step keeps -----

  function CallsOn(calls: seq<Call>, i: nat): seq<Call> {
    if calls == [] then []
    else
      var c := calls[|calls| - 1];
      CallsOn(calls[..|calls| - 1], i) + if c.index == i then [c] else []
  }

  lemma CallsOnSnoc(calls: seq<Call>, c: Call, i: nat)
    ensures CallsOn(calls + [c], i) == CallsOn(calls, i) + if c.index == i then [c] else []
  {
    assert (calls + [c])[..|calls|] == calls;
  }

  predicate Busy(w: Worker, i: nat) {
    (w.Holding? || w.Called?) && w.index == i
  }

  /** Slot i belongs to the worker that took i, and is written from the one call on i. */
  predicate Slot(env: Env, s: State, i: nat) {
    i < |s.results| &&
    if i < |s.takes| then
      var w := s.takes[i].worker;
      s.takes[i].index == i && w < |s.workers| &&
      (if s.workers[w] == Holding(i) then CallsOn(s.calls, i) == [] && s.results[i] == None
       else if Busy(s.workers[w], i) then
         CallsOn(s.calls, i) == [Call(w, i, s.workers[w].outcome)] && s.results[i] == None
       else CallsOn(s.calls, i) == [Call(w, i, s.results[i])])
    else CallsOn(s.calls, i) == [] && s.results[i] == None
  }

  predicate Thread(env: Env, s: State, w: nat) {
    w < |s.workers| &&
    match s.workers[w]
    case Idle => w >= s.joined
    case Exited => s.next >= |env.texts|
    case Holding(i) => w >= s.joined && i < |s.takes| && s.takes[i].worker == w
    case Called(i, v) =>
      w >= s.joined && i < |s.takes| && s.takes[i].worker == w && i < |env.texts| && Possible(env.texts[i], v)
  }

  predicate Logged(env: Env, s: State, k: nat) {
    k < |s.calls| && s.calls[k].index < |env.texts| && Possible(env.texts[s.calls[k].index], s.calls[k].outcome)
  }

  predicate Main(env: Env, s: State) {
    |s.results| == |env.texts| && |s.takes| == Min(s.next, |env.texts|) &&
    |s.workers| <= Workers(env) && s.joined <= |s.workers| &&
    (s.joined > 0 ==> |s.workers| == Workers(env)) &&
    (s.returned ==> s.joined == Workers(env))
  }

  ghost predicate Inv(env: Env, s: State) {
    Main(env, s) &&
    (forall i | 0 <= i < |env.texts| :: Slot(env, s, i)) &&
    (forall w | 0 <= w < |s.workers| :: Thread(env, s, w)) &&
    (forall k | 0 <= k < |s.calls| :: Logged(env, s, k))
  }

  lemma StartInv(env: Env)
    ensures Inv(env, Start(env))
  {
  }

  lemma StepSlot(env: Env, s: State, e: Step, i: nat)
    requires Inv(env, s) && Enabled(env, s, e) && i < |env.texts|
    ensures Slot(env, Apply(env, s, e), i)
  {
    assert Slot(env, s, i);
    match e
    case Fetch(w) => FetchSlot(env, s, w, i);
    case Embed(w, v) => EmbedSlot(env, s, w, v, i);
    case Store(w) => StoreSlot(env, s, w, i);
    case _ =>
  }

  lemma FetchSlot(env: Env, s: State, w: nat, i: nat)
    requires Main(env, s) && Slot(env, s, i) && Enabled(env, s, Fetch(w)) && i < |env.texts|
    ensures Slot(env, Apply(env, s, Fetch(w)), i)
  {
    hide CallsOn;
  }

  lemma EmbedSlot(env: Env, s: State, w: nat, outcome: Outcome, i: nat)
    requires Main(env, s) && Slot(env, s, i) && Thread(env, s, w) && Enabled(env, s, Embed(w, outcome))
    ensures Slot(env, Apply(env, s, Embed(w, outcome)), i)
  {
    hide Possible;
    CallsOnSnoc(s.calls, Call(w, s.workers[w].index, outcome), i);
    hide CallsOn;
  }

  lemma StoreSlot(env: Env, s: State, w: nat, i: nat)
    requires Main(env, s) && Slot(env, s, i) && Thread(env, s, w) && Enabled(env, s, Store(w))
    ensures Slot(env, Apply(env, s, Store(w)), i)
  {
    hide CallsOn, Possible;
  }

  lemma StepThread(env: Env, s: State, e: Step, w: nat)
    requires Inv(env, s) && Enabled(env, s, e) && w < |Apply(env, s, e).workers|
    ensures Thread(env, Apply(env, s, e), w)
  {
    if w < |s.workers| {
      assert Thread(env, s, w);
    }
  }

  lemma StepLogged(env: Env, s: State, e: Step, k: nat)
    requires Inv(env, s) && Enabled(env, s, e) && k < |Apply(env, s, e).calls|
    ensures Logged(env, Apply(env, s, e), k)
  {
    if k < |s.calls| {
      assert Logged(env, s, k);
    }
  }

  lemma StepInv(env: Env, s: State, e: Step)
    requires Inv(env, s) && Enabled(env, s, e)
    ensures Inv(env, Apply(env, s, e))
  {
    var t := Apply(env, s, e);
    forall i | 0 <= i < |env.texts| ensures Slot(env, t, i) {
      StepSlot(env, s, e, i);
    }
    forall w | 0 <= w < |t.workers| ensures Thread(env, t, w) {
      StepThread(env, s, e, w);
    }
    forall k | 0 <= k < |t.calls| ensures Logged(env, t, k) {
      StepLogged(env, s, e, k);
    }
    if e.Return? {
      assert s.joined == Workers(env);
    }
  }

  // ----- Runs -----

  ghost predicate Run(env: Env, states: seq<State>, steps: seq<Step>) {
    |states| == |steps| + 1 && states[0] == Start(env) &&
    forall k | 0 <= k < |steps| :: Enabled(env, states[k], steps[k]) && states[k + 1] == Apply(env, states[k], steps[k])
  }

  lemma {:induction false} RunInv(env: Env, states: seq<State>, steps: seq<Step>, k: nat)
    requires Run(env, states, steps) && k < |states|
    ensures Inv(env, states[k])
  {
    hide Inv, Enabled, Apply;
    if k == 0 {
      StartInv(env);
    } else {
      RunInv(env, states, steps, k - 1);
      StepInv(env, states[k - 1], steps[k - 1]);
    }
  }

  /** At no moment are two workers at work on the same slot. */
  lemma OneWorkerPerSlot(env: Env, states: seq<State>, steps: seq<Step>, k: nat, v: nat, w: nat, i: nat)
    requires Run(env, states, steps) && k < |states| && v < |states[k].workers| && w < |states[k].workers|
    requires Busy(states[k].workers[v], i) && Busy(states[k].workers[w], i)
    ensures v == w
  {
    hide Enabled, Apply;
    RunInv(env, states, steps, k);
    assert Thread(env, states[k], v) && Thread(env, states[k], w);
  }

  /** When the pool returns, every index was taken once and embedded once, by the same worker, and its slot holds
      what that call gave. */
  lemma JoinExact(env: Env, states: seq<State>, steps: seq<Step>, k: nat, i: nat)
    requires Run(env, states, steps) && k < |states| && states[k].returned && i < |env.texts|
    ensures var s := states[k];
      |s.results| == |s.takes| == |env.texts| && s.takes[i].index == i &&
      CallsOn(s.calls, i) == [Call(s.takes[i].worker, i, s.results[i])] && Possible(env.texts[i], s.results[i])
  {
    hide Enabled, Apply;
    RunInv(env, states, steps, k);
    Settled(env, states[k], i);
  }

  lemma Settled(env: Env, s: State, i: nat)
    requires Inv(env, s) && s.returned && i < |env.texts|
    ensures |s.results| == |s.takes| == |env.texts| && s.takes[i].index == i
    ensures CallsOn(s.calls, i) == [Call(s.takes[i].worker, i, s.results[i])] && Possible(env.texts[i], s.results[i])
  {
    assert Workers(env) > 0;
    assert Thread(env, s, 0);
    assert Slot(env, s, i);
    assert Thread(env, s, s.takes[i].worker);
    var k := CallsOnFrom(s.calls, i);
    assert Logged(env, s, k);
  }

  lemma {:induction false} CallsOnFrom(calls: seq<Call>, i: nat) returns (k: nat)
    requires |CallsOn(calls, i)| > 0
    ensures k < |calls| && calls[k] == CallsOn(calls, i)[0] && calls[k].index == i
  {
    var front := calls[..|calls| - 1];
    if |CallsOn(front, i)| > 0 {
      k := CallsOnFrom(front, i);
    } else {
      k := |calls| - 1;
    }
  }

  // ----- Termination -----

  function Weight(w: Worker): nat {
    match w
    case Idle => 1
    case Holding(_) => 3
    case Called(_, _) => 2
    case Exited => 0
  }

  function Weights(ws: seq<Worker>): nat {
    if ws == [] then 0 else Weights(ws[..|ws| - 1]) + Weight(ws[|ws| - 1])
  }

  lemma {:induction false} WeightsUpdate(ws: seq<Worker>, i: nat, w: Worker)
    requires i < |ws|
    ensures Weights(ws[i := w]) == Weights(ws) - Weight(ws[i]) + Weight(w)
  {
    var n := |ws| - 1;
    if i < n {
      WeightsUpdate(ws[..n], i, w);
      assert ws[i := w][..n] == ws[..n][i := w];
    } else {
      assert ws[i := w][..n] == ws[..n];
    }
  }

  /** The number of steps still to come. */
  function Remaining(env: Env, s: State): int {
    2 * (Workers(env) - |s.workers|) + Weights(s.workers) + 3 * (|env.texts| - Min(s.next, |env.texts|))
    + Workers(env) - s.joined + if s.returned then 0 else 1
  }

  lemma StepRemaining(env: Env, s: State, e: Step)
    requires Enabled(env, s, e)
    ensures Remaining(env, Apply(env, s, e)) == Remaining(env, s) - 1
  {
    match e
    case Spawn => assert (s.workers + [Idle])[..|s.workers|] == s.workers;
    case Fetch(w) =>
      WeightsUpdate(s.workers, w, if s.next >= |env.texts| then Exited else Holding(s.next));
    case Embed(w, v) => WeightsUpdate(s.workers, w, Called(s.workers[w].index, v));
    case Store(w) => WeightsUpdate(s.workers, w, Idle);
    case Join =>
    case Return =>
  }

  lemma {:induction false} WeightsNonNegative(ws: seq<Worker>)
    requires forall w | 0 <= w < |ws| :: ws[w] == Exited
    ensures Weights(ws) == 0
  {
    if ws != [] {
      WeightsNonNegative(ws[..|ws| - 1]);
    }
  }

  /** Something is left to do exactly until the pool has returned. */
  lemma RemainingZero(env: Env, s: State)
    requires Inv(env, s)
    ensures Remaining(env, s) >= 0 && (Remaining(env, s) == 0 <==> s.returned)
  {
    if s.returned {
      forall w | 0 <= w < |s.workers| ensures s.workers[w] == Exited {
        assert Thread(env, s, w);
      }
      WeightsNonNegative(s.workers);
      if |env.texts| > 0 {
        assert Thread(env, s, 0);
      }
    }
  }

  /** No run gets stuck before it has returned. */
  lemma Progress(env: Env, s: State) returns (e: Step)
    requires Inv(env, s) && !s.returned
    ensures Enabled(env, s, e)
  {
    if |s.workers| < Workers(env) {
      e := Spawn;
    } else if s.joined == |s.workers| {
      e := Return;
    } else {
      var w := s.joined;
      assert Thread(env, s, w);
      match s.workers[w]
      case Idle => e := Fetch(w);
      case Holding(i) =>
        assert Possible(env.texts[i], None);
        e := Embed(w, None);
      case Called(i, v) => e := Store(w);
      case Exited => e := Join;
    }
  }

  /** Every run that returns takes the same number of steps, and no run takes more. */
  lemma {:induction false} RunLength(env: Env, states: seq<State>, steps: seq<Step>)
    requires Run(env, states, steps)
    ensures var total := 3 * Workers(env) + 3 * |env.texts| + 1;
      |steps| <= total && (|steps| == total <==> states[|steps|].returned)
  {
    RunRemaining(env, states, steps, |steps|);
    RunInv(env, states, steps, |steps|);
    RemainingZero(env, states[|steps|]);
  }

  lemma {:induction false} RunRemaining(env: Env, states: seq<State>, steps: seq<Step>, k: nat)
    requires Run(env, states, steps) && k < |states|
    ensures Remaining(env, states[k]) + k == 3 * Workers(env) + 3 * |env.texts| + 1
  {
    if k > 0 {
      hide Enabled, Apply, Remaining;
      RunRemaining(env, states, steps, k - 1);
      StepRemaining(env, states[k - 1], steps[k - 1]);
    }
  }

  // ----- The pool in place -----

  class Pool {
    const env: Env
    const results: array<Outcome>
    var next: nat
    var workers: seq<Worker>
    var joined: nat
    var returned: bool
    var takes: seq<Take>
    var calls: seq<Call>

    function View(): State
      reads this, results
    {
      State(next, workers, joined, returned, results[..], takes, calls)
    }

    constructor (env: Env)
      ensures this.env == env && View() == Start(env) && fresh(results)
    {
      this.env := env;
      results := new Outcome[|env.texts|](i => None);
      next, workers, joined, returned, takes, calls := 0, [], 0, false, [], [];
      new;
      assert results[..] == NoOutcomes(|env.texts|);
    }

    method Emplace()
      requires Enabled(env, View(), Spawn)
      modifies this
      ensures View() == Apply(env, old(View()), Spawn)
    {
      workers := workers + [Idle];
    }

    /** One round of the fetch-and-add: keep the index, or leave the loop. */
    method FetchAdd(w: nat)
      requires Enabled(env, View(), Fetch(w))
      modifies this
      ensures View() == Apply(env, old(View()), Fetch(w))
    {
      var i := next;
      next := next + 1;
      if i >= |env.texts| {
        workers := workers[w := Exited];
      } else {
        workers := workers[w := Holding(i)];
        takes := takes + [Take(w, i)];
      }
    }

    method One(w: nat, outcome: Outcome)
      requires Enabled(env, View(), Embed(w, outcome))
      modifies this
      ensures View() == Apply(env, old(View()), Embed(w, outcome))
    {
      var i := workers[w].index;
      workers := workers[w := Called(i, outcome)];
      calls := calls + [Call(w, i, outcome)];
    }

    method Write(w: nat)
      requires Enabled(env, View(), Store(w))
      modifies this, results
      ensures View() == Apply(env, old(View()), Store(w))
    {
      results[workers[w].index] := workers[w].outcome;
      workers := workers[w := Idle];
    }

    method JoinNext()
      requires Enabled(env, View(), Join)
      modifies this
      ensures View() == Apply(env, old(View()), Join)
    {
      joined := joined + 1;
    }

    method Finish()
      requires Enabled(env, View(), Return)
      modifies this
      ensures View() == Apply(env, old(View()), Return)
    {
      returned := true;
    }

    /** One step of whichever thread the scheduler lets run. */
    method Advance(e: Step)
      requires Enabled(env, View(), e)
      modifies this, results
      ensures View() == Apply(env, old(View()), e)
    {
      match e
      case Spawn => Emplace();
      case Fetch(w) => FetchAdd(w);
      case Embed(w, v) => One(w, v);
      case Store(w) => Write(w);
      case Join => JoinNext();
      case Return => Finish();
    }
  }

  /** `EmbedExecutor::batch` under an arbitrary scheduler: it returns, and slot i holds the outcome of the one call
      made on text i. */
  method Batch(texts: seq<string>, maxWorkers: int) returns (results: seq<Outcome>, calls: seq<Call>)
    ensures |results| == |texts|
    ensures forall i | 0 <= i < |texts| ::
      |CallsOn(calls, i)| == 1 && CallsOn(calls, i)[0].outcome == results[i] && Possible(texts[i], results[i])
  {
    hide Enabled, Apply, Inv, Remaining;
    var env := Env(texts, maxWorkers);
    var pool := new Pool(env);
    StartInv(env);
    while !pool.returned
      invariant pool.env == env && fresh(pool) && fresh(pool.results)
      invariant Inv(env, pool.View())
      decreases Remaining(env, pool.View())
    {
      ghost var e0 := Progress(env, pool.View());
      var e :| Enabled(env, pool.View(), e);
      StepInv(env, pool.View(), e);
      StepRemaining(env, pool.View(), e);
      RemainingZero(env, pool.View());
      pool.Advance(e);
    }
    results, calls := pool.results[..], pool.calls;
    MainOf(env, pool.View());
    forall i | 0 <= i < |texts|
      ensures |CallsOn(calls, i)| == 1 && CallsOn(calls, i)[0].outcome == results[i] && Possible(texts[i], results[i])
    {
      Settled(env, pool.View(), i);
    }
  }

  lemma MainOf(env: Env, s: State)
    requires Inv(env, s)
    ensures Main(env, s)
  {
  }
}
