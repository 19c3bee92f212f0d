/**
  The worker pool inside the process collector: a closed channel holding every listed process,
  workers that take, look at the context, probe and send, and a results channel with room for one
  result per process. Any worker may be scheduled at any moment.
 */
module ProcessPool {

  /** A collected record: the pid is the process's own, the rest is whatever probing found. */
  datatype Info = Info(pid: int, details: string)

  datatype Worker = Ready | Took(pid: int) | Probing(pid: int) | Exited

  /** `dropped` records what workers held when they saw the cancellation. */
  datatype State = State(
    procs: seq<int>,
    todo: seq<int>,
    workers: seq<Worker>,
    results: seq<Info>,
    dropped: seq<int>,
    cancelled: bool)

  datatype Action = Take(w: nat) | Leave(w: nat) | Check(w: nat) | Send(w: nat, details: string) | Cancel

  function Initial(procs: seq<int>, workers: nat): State {
    State(procs, procs, seq(workers, _ => Ready), [], [], false)
  }

  /** The number of workers a collector is created with. */
  function PoolSize(cpus: nat): (workers: nat)
    ensures 4 <= workers <= 32
    ensures 4 <= 2 * cpus <= 32 ==> workers == 2 * cpus
    ensures 2 * cpus < 4 ==> workers == 4
    ensures 2 * cpus > 32 ==> workers == 32
  {
    if 2 * cpus < 4 then 4 else if 2 * cpus > 32 then 32 else 2 * cpus
  }

  predicate Enabled(s: State, a: Action) {
    match a
    case Take(w) => w < |s.workers| && s.workers[w].Ready? && s.todo != []
    case Leave(w) => w < |s.workers| && s.workers[w].Ready? && s.todo == []
    case Check(w) => w < |s.workers| && s.workers[w].Took?
    case Send(w, _) => w < |s.workers| && s.workers[w].Probing? && |s.results| < |s.procs|
    case Cancel => true
  }

  function Step(s: State, a: Action): State {
    if !Enabled(s, a) then s else
    match a
    case Take(w) => s.(todo := s.todo[1..], workers := s.workers[w := Took(s.todo[0])])
    case Leave(w) => s.(workers := s.workers[w := Exited])
    case Check(w) =>
      var p := s.workers[w].pid;
      if s.cancelled then s.(workers := s.workers[w := Exited], dropped := s.dropped + [p])
      else s.(workers := s.workers[w := Probing(p)])
    case Send(w, details) =>
      s.(workers := s.workers[w := Ready], results := s.results + [Info(s.workers[w].pid, details)])
    case Cancel => s.(cancelled := true)
  }

  function Run(s: State, actions: seq<Action>): State
    decreases |actions|
  {
    if actions == [] then s else Run(Step(s, actions[0]), actions[1..])
  }

  // ----- conservation -----

  function One(b: bool): nat {
    if b then 1 else 0
  }

  function Count(pids: seq<int>, p: int): nat {
    if pids == [] then 0 else One(pids[0] == p) + Count(pids[1..], p)
  }

  function Holds(w: Worker, p: int): nat {
    One((w.Took? || w.Probing?) && w.pid == p)
  }

  function InHand(workers: seq<Worker>, p: int): nat {
    if workers == [] then 0 else Holds(workers[0], p) + InHand(workers[1..], p)
  }

  function Pids(results: seq<Info>): seq<int> {
    seq(|results|, i requires 0 <= i < |results| => results[i].pid)
  }

  /** How often a pid is waiting, in a worker's hands, collected, or dropped. */
  function Everywhere(s: State, p: int): nat {
    Count(s.todo, p) + InHand(s.workers, p) + Count(Pids(s.results), p) + Count(s.dropped, p)
  }

  predicate SomeExited(s: State) {
    exists w :: 0 <= w < |s.workers| && s.workers[w].Exited?
  }

  predicate AllExited(s: State) {
    forall w :: 0 <= w < |s.workers| ==> s.workers[w].Exited?
  }

  /** Every listed process is in one place, as often as it is listed. */
  ghost predicate Inv(s: State) {
    && (forall p :: Everywhere(s, p) == Count(s.procs, p))
    && |s.todo| + Busy(s.workers) + |s.results| + |s.dropped| == |s.procs|
    && (!s.cancelled ==> s.dropped == [] && (SomeExited(s) ==> s.todo == []))
  }

  function Busy(workers: seq<Worker>): nat {
    if workers == [] then 0 else One(workers[0].Took? || workers[0].Probing?) + Busy(workers[1..])
  }

  lemma {:induction false} InHandUpdate(workers: seq<Worker>, w: nat, x: Worker, p: int)
    requires w < |workers|
    ensures InHand(workers[w := x], p) == InHand(workers, p) - Holds(workers[w], p) + Holds(x, p)
    ensures Busy(workers[w := x])
            == Busy(workers) - One(workers[w].Took? || workers[w].Probing?) + One(x.Took? || x.Probing?)
  {
    if w > 0 {
      InHandUpdate(workers[1..], w - 1, x, p);
      assert workers[w := x][1..] == workers[1..][w - 1 := x];
    } else {
      assert workers[w := x][1..] == workers[1..];
    }
  }

  lemma {:induction false} CountAppend(pids: seq<int>, q: int, p: int)
    ensures Count(pids + [q], p) == Count(pids, p) + One(q == p)
  {
    if pids != [] {
      assert (pids + [q])[1..] == pids[1..] + [q];
      CountAppend(pids[1..], q, p);
    }
  }

  lemma StepKeepsEverywhere(s: State, a: Action, p: int)
    requires Enabled(s, a) && !a.Cancel?
    ensures Everywhere(Step(s, a), p) == Everywhere(s, p)
    ensures var s' := Step(s, a);
            |s'.todo| + Busy(s'.workers) + |s'.results| + |s'.dropped|
            == |s.todo| + Busy(s.workers) + |s.results| + |s.dropped|
  {
    var s' := Step(s, a);
    InHandUpdate(s.workers, a.w, s'.workers[a.w], p);
    match a {
      case Take(w) =>
      case Send(w, details) =>
        var q := s.workers[w].pid;
        CountAppend(Pids(s.results), q, p);
        assert Pids(s'.results) == Pids(s.results) + [q];
      case Check(w) => CountAppend(s.dropped, s.workers[w].pid, p);
      case Leave(w) =>
    }
  }

  lemma SameEverywhere(s: State, s': State)
    requires s'.todo == s.todo && s'.workers == s.workers && s'.results == s.results && s'.dropped == s.dropped
    ensures forall p :: Everywhere(s', p) == Everywhere(s, p)
  {
  }

  lemma StepKeepsInv(s: State, a: Action)
    requires Inv(s)
    ensures Inv(Step(s, a))
  {
    hide Everywhere;
    var s' := Step(s, a);
    if a.Cancel? {
      SameEverywhere(s, s');
    } else if Enabled(s, a) {
      StepKeepsEverywhere(s, a, 0);
      forall p ensures Everywhere(s', p) == Count(s'.procs, p) {
        StepKeepsEverywhere(s, a, p);
      }
      if SomeExited(s') && !a.Leave? && !s.cancelled {
        var v :| 0 <= v < |s'.workers| && s'.workers[v].Exited?;
        assert s.workers[v].Exited?;
      }
    }
  }

  lemma {:induction false} RunKeepsInv(s: State, actions: seq<Action>)
    requires Inv(s)
    ensures Inv(Run(s, actions)) && Run(s, actions).procs == s.procs && |Run(s, actions).workers| == |s.workers|
    decreases |actions|
  {
    hide Inv;
    if actions != [] {
      StepKeepsInv(s, actions[0]);
      RunKeepsInv(Step(s, actions[0]), actions[1..]);
    }
  }

  lemma {:induction false} NothingInHand(workers: seq<Worker>, p: int)
    requires forall w :: 0 <= w < |workers| ==> workers[w].Ready? || workers[w].Exited?
    ensures InHand(workers, p) == 0 && Busy(workers) == 0
  {
    if workers != [] {
      NothingInHand(workers[1..], p);
    }
  }

  lemma InitialInv(procs: seq<int>, workers: nat)
    ensures Inv(Initial(procs, workers))
  {
    var s := Initial(procs, workers);
    NothingInHand(s.workers, 0);
    forall p ensures Everywhere(s, p) == Count(s.procs, p) {
      NothingInHand(s.workers, p);
    }
  }

  /** A worker that has probed a process can always send: the results channel is never full for it. */
  lemma SendNeverBlocks(s: State, w: nat)
    requires Inv(s) && w < |s.workers| && s.workers[w].Probing?
    ensures |s.results| < |s.procs|
  {
    InHandUpdate(s.workers, w, Exited, 0);
  }

  // ----- termination -----

  function Weight(w: Worker): nat {
    match w case Exited => 0 case Ready => 1 case Probing(_) => 2 case Took(_) => 3
  }

  function Weights(workers: seq<Worker>): nat {
    if workers == [] then 0 else Weight(workers[0]) + Weights(workers[1..])
  }

  function Measure(s: State): nat {
    4 * |s.todo| + Weights(s.workers)
  }

  lemma {:induction false} WeightsUpdate(workers: seq<Worker>, w: nat, x: Worker)
    requires w < |workers|
    ensures Weights(workers[w := x]) == Weights(workers) - Weight(workers[w]) + Weight(x)
  {
    if w > 0 {
      WeightsUpdate(workers[1..], w - 1, x);
      assert workers[w := x][1..] == workers[1..][w - 1 := x];
    } else {
      assert workers[w := x][1..] == workers[1..];
    }
  }

  function WorkerSteps(s: State, actions: seq<Action>): nat
    decreases |actions|
  {
    if actions == [] then 0
    else
      (if !actions[0].Cancel? && Enabled(s, actions[0]) then 1 else 0)
      + WorkerSteps(Step(s, actions[0]), actions[1..])
  }

  lemma StepLowersMeasure(s: State, a: Action)
    ensures Measure(Step(s, a)) <= Measure(s)
    ensures !a.Cancel? && Enabled(s, a) ==> Measure(Step(s, a)) < Measure(s)
  {
    if !a.Cancel? && Enabled(s, a) {
      WeightsUpdate(s.workers, a.w, Step(s, a).workers[a.w]);
    }
  }

  /** In any schedule the workers act at most this often before they have all exited. */
  lemma {:induction false} SchedulesAreBounded(s: State, actions: seq<Action>)
    ensures WorkerSteps(s, actions) + Measure(Run(s, actions)) <= Measure(s)
    decreases |actions|
  {
    hide Step, Enabled;
    if actions != [] {
      StepLowersMeasure(s, actions[0]);
      SchedulesAreBounded(Step(s, actions[0]), actions[1..]);
    }
  }

  // ----- cancellation -----

  /** May the worker take one more process once the context is cancelled? It looks at the context
      only after taking, so it may, once. */
  function MayTake(w: Worker): nat {
    match w case Ready => 1 case Probing(_) => 1 case Took(_) => 0 case Exited => 0
  }

  function MaySend(w: Worker): nat {
    match w case Probing(_) => 1 case _ => 0
  }

  function AllMayTake(workers: seq<Worker>): nat {
    if workers == [] then 0 else MayTake(workers[0]) + AllMayTake(workers[1..])
  }

  function AllMaySend(workers: seq<Worker>): nat {
    if workers == [] then 0 else MaySend(workers[0]) + AllMaySend(workers[1..])
  }

  lemma {:induction false} MayUpdate(workers: seq<Worker>, w: nat, x: Worker)
    requires w < |workers|
    ensures AllMayTake(workers[w := x]) == AllMayTake(workers) - MayTake(workers[w]) + MayTake(x)
    ensures AllMaySend(workers[w := x]) == AllMaySend(workers) - MaySend(workers[w]) + MaySend(x)
  {
    if w > 0 {
      MayUpdate(workers[1..], w - 1, x);
      assert workers[w := x][1..] == workers[1..][w - 1 := x];
    } else {
      assert workers[w := x][1..] == workers[1..];
    }
  }

  lemma CancelledStep(s: State, a: Action)
    requires s.cancelled
    ensures var s' := Step(s, a);
            && s'.cancelled && |s'.workers| == |s.workers|
            && |s.todo| - AllMayTake(s.workers) <= |s'.todo| - AllMayTake(s'.workers)
            && |s'.results| + AllMaySend(s'.workers) <= |s.results| + AllMaySend(s.workers)
  {
    if !a.Cancel? && Enabled(s, a) {
      MayUpdate(s.workers, a.w, Step(s, a).workers[a.w]);
    }
  }

  lemma {:induction false} MayBounds(workers: seq<Worker>)
    ensures AllMayTake(workers) <= |workers| && AllMaySend(workers) <= |workers|
  {
    if workers != [] {
      MayBounds(workers[1..]);
    }
  }

  /**
    Workers stop on cancellation. From then on, in any schedule, each of them takes at most one more
    process, and the only records still collected are those of processes being probed at that moment.
   */
  lemma {:induction false} WorkersStopOnCancellation(s: State, actions: seq<Action>)
    requires s.cancelled
    ensures |s.todo| - |Run(s, actions).todo| <= AllMayTake(s.workers) <= |s.workers|
    ensures |Run(s, actions).results| - |s.results| <= AllMaySend(s.workers) <= |s.workers|
    ensures |s.todo| - AllMayTake(s.workers) <= |Run(s, actions).todo| - AllMayTake(Run(s, actions).workers)
    ensures |Run(s, actions).results| + AllMaySend(Run(s, actions).workers) <= |s.results| + AllMaySend(s.workers)
    decreases |actions|
  {
    hide Step, MayTake, MaySend;
    MayBounds(s.workers);
    if actions != [] {
      CancelledStep(s, actions[0]);
      WorkersStopOnCancellation(Step(s, actions[0]), actions[1..]);
    }
  }

  ghost predicate SomeWorkerCanAct(s: State) {
    exists a: Action :: !a.Cancel? && Enabled(s, a)
  }

  /** No deadlock: unless all workers have exited, one of them can act. */
  lemma PoolIsNeverStuck(s: State)
    requires Inv(s)
    ensures SomeWorkerCanAct(s) <==> !AllExited(s)
  {
    if !AllExited(s) {
      var w: nat :| w < |s.workers| && !s.workers[w].Exited?;
      match s.workers[w] {
        case Ready => assert Enabled(s, if s.todo == [] then Leave(w) else Take(w));
        case Took(_) => assert Enabled(s, Check(w));
        case Probing(_) => SendNeverBlocks(s, w); assert Enabled(s, Send(w, ""));
      }
    }
  }

  // ----- the result -----

  /**
    When all workers have exited, in any schedule: the collected processes are among the listed
    ones, with multiplicity, and without cancellation they are all of them exactly when there was
    a worker at all (or nothing to do).
   */
  lemma CollectedProcesses(procs: seq<int>, workers: nat, actions: seq<Action>)
    requires AllExited(Run(Initial(procs, workers), actions))
    ensures var s := Run(Initial(procs, workers), actions);
            && multiset(Pids(s.results)) <= multiset(procs)
            && (!s.cancelled ==> (multiset(Pids(s.results)) == multiset(procs) <==> workers > 0 || procs == []))
  {
    var s := Run(Initial(procs, workers), actions);
    InitialInv(procs, workers);
    RunKeepsInv(Initial(procs, workers), actions);
    forall p ensures multiset(Pids(s.results))[p] <= multiset(procs)[p]
      ensures s.todo == [] && s.dropped == [] ==> multiset(Pids(s.results))[p] == multiset(procs)[p]
    {
      CountIsMultiplicity(Pids(s.results), p);
      CountIsMultiplicity(procs, p);
      NothingInHand(s.workers, p);
      assert Everywhere(s, p) == Count(procs, p);
    }
    if workers > 0 {
      assert s.workers[0].Exited?;
    } else {
      NoWorkersNoResults(Initial(procs, workers), actions);
      assert procs != [] ==> procs[0] in multiset(procs);
    }
  }

  lemma {:induction false} CountIsMultiplicity(pids: seq<int>, p: int)
    ensures multiset(pids)[p] == Count(pids, p)
  {
    if pids != [] {
      assert pids == [pids[0]] + pids[1..];
      CountIsMultiplicity(pids[1..], p);
    }
  }

  lemma {:induction false} NoWorkersNoResults(s: State, actions: seq<Action>)
    requires s.workers == []
    ensures Run(s, actions).results == s.results
    decreases |actions|
  {
    if actions != [] {
      NoWorkersNoResults(Step(s, actions[0]), actions[1..]);
    }
  }

  /** The final loop, over the channel as any schedule of the workers leaves it once they have all
      exited: what the collector returns is among the listed processes, with multiplicity, and
      without cancellation it is all of them exactly when there was a worker (or nothing to do). */
  method DrainResults(resultsChan: seq<Info>, ghost procs: seq<int>, ghost workers: nat, ghost actions: seq<Action>)
    returns (results: seq<Info>)
    requires AllExited(Run(Initial(procs, workers), actions))
    requires resultsChan == Run(Initial(procs, workers), actions).results
    ensures results == resultsChan
    ensures multiset(Pids(results)) <= multiset(procs)
    ensures !Run(Initial(procs, workers), actions).cancelled ==>
              (multiset(Pids(results)) == multiset(procs) <==> workers > 0 || procs == [])
  {
    results := [];
    var rest := resultsChan;
    while rest != []
      invariant results + rest == resultsChan
      decreases |rest|
    {
      results, rest := results + [rest[0]], rest[1..];
    }
    CollectedProcesses(procs, workers, actions);
  }
}
