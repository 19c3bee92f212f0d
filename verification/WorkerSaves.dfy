/**
  Why a worker's save may be one atomic step: the service's saves, interleaved statement by statement
  with each other on pooled connections, leave the database some run of the service leaves.
 */
module WorkerSaves {
  import TenantDb
  import TenantTheorems
  import Repository
  import opened Ingestion
  import IngestionTheorems

  /** The task a transaction saves, and the clock it reads. */
  datatype Source = Source(task: Task, now: int)

  /** The transaction is the save of processing its task, which the handler would have accepted. */
  predicate SavesTask(cfg: Config, tx: TenantDb.TxId, op: TenantDb.Op, source: Source) {
    && source.task.tenant == tx.tenant && tx.tenant != "" && source.task.payload != ""
    && cfg.decode(source.task.payload).Some?
    && var m := cfg.decode(source.task.payload).value;
       DeviceId(m) != "" && op == TenantDb.SaveDevice(DeviceId(m), m.hostname, source.task.payload, source.now)
  }

  ghost predicate SavesTasks(cfg: Config, log: seq<TenantDb.LogEntry>, source: TenantDb.TxId -> Source) {
    forall i :: 0 <= i < |log| && log[i].Saved? ==> SavesTask(cfg, log[i].tx, log[i].op, source(log[i].tx))
  }

  /** The tasks of the committed saves, in commit order. */
  function Tasks(log: seq<TenantDb.LogEntry>, source: TenantDb.TxId -> Source): seq<Task> {
    if log == [] then []
    else
      var n := |log| - 1;
      Tasks(log[..n], source) + (if log[n].Saved? then [source(log[n].tx).task] else [])
  }

  /** The one worker is idle, nothing is queued or being received, and request numbers from the
      number of accepted tasks on are unused. */
  ghost predicate Quiet(s: State) {
    && s.workers == [Idle] && s.queue == [] && s.handlers == map[] && s.capacity == 1
    && !s.draining && !s.cancelled && !s.closed
    && forall h :: h in s.replies ==> h < |s.accepted|
  }

  ghost predicate Leads(cfg: Config, actions: seq<Action>, s: State) {
    Run(cfg, NewService(1, 1), actions) == s
  }

  lemma Extend(cfg: Config, actions: seq<Action>, s: State, a: Action) returns (actions': seq<Action>, s': State)
    requires Leads(cfg, actions, s)
    ensures actions' == actions + [a] && s' == Step(cfg, s, a) && Leads(cfg, actions', s')
  {
    IngestionTheorems.Snoc(cfg, NewService(1, 1), actions, a);
    actions', s' := actions + [a], Step(cfg, s, a);
  }

  /** A task is accepted and taken. */
  lemma Taken(cfg: Config, before: seq<Action>, s: State, task: Task) returns (actions: seq<Action>, s': State)
    requires Leads(cfg, before, s) && Quiet(s) && task.tenant != "" && task.payload != ""
    ensures Leads(cfg, actions, s')
    ensures s' == s.(workers := [Busy(|s.accepted|)], replies := s.replies[|s.accepted| := ACCEPTED],
                     accepted := s.accepted + [Accepted(task, |s.accepted|)])
  {
    var h := |s.accepted|;
    actions, s' := Extend(cfg, before, s, Receive(h, task.tenant, task.payload));
    actions, s' := Extend(cfg, actions, s', Offer(h, false));
    assert s'.handlers == map[];
    actions, s' := Extend(cfg, actions, s', Take(0));
  }

  /** Processing a task does to the database what its committed transaction does. */
  lemma ProcessIsSave(cfg: Config, db: TenantDb.Db, tx: TenantDb.TxId, op: TenantDb.Op, source: Source)
    requires cfg.hasRepo && SavesTask(cfg, tx, op, source)
    ensures Process(cfg, db, source.task, source.now, Repository.NoFault).db
            == TenantTheorems.Apply(db, TenantDb.Saved(tx, op), cfg.cast)
  {
  }

  lemma SaveByWorker(cfg: Config, before: seq<Action>, s: State, tx: TenantDb.TxId, op: TenantDb.Op, source: Source)
    returns (actions: seq<Action>, s': State)
    requires cfg.hasRepo && Leads(cfg, before, s) && Quiet(s) && SavesTask(cfg, tx, op, source)
    ensures Leads(cfg, actions, s') && Quiet(s')
    ensures s'.db == TenantTheorems.Apply(s.db, TenantDb.Saved(tx, op), cfg.cast)
    ensures s'.accepted == s.accepted + [Accepted(source.task, |s.accepted|)]
  {
    actions, s' := Taken(cfg, before, s, source.task);
    ProcessIsSave(cfg, s.db, tx, op, source);
    hide Process;
    actions, s' := Extend(cfg, actions, s', Finish(0, source.now, Repository.NoFault));
  }

  ghost predicate AcceptedTasks(s: State, tasks: seq<Task>) {
    |s.accepted| == |tasks| && forall i :: 0 <= i < |tasks| ==> s.accepted[i].task == tasks[i]
  }

  lemma {:induction false} ServiceReplays(cfg: Config, log: seq<TenantDb.LogEntry>, source: TenantDb.TxId -> Source)
    returns (actions: seq<Action>, s: State)
    requires cfg.hasRepo && SavesTasks(cfg, log, source)
    ensures Leads(cfg, actions, s) && Quiet(s)
    ensures s.db == TenantTheorems.Replay(log, cfg.cast) && AcceptedTasks(s, Tasks(log, source))
  {
    hide SavesTask, TenantTheorems.Apply;
    if log == [] {
      actions, s := [], NewService(1, 1);
    } else {
      var n := |log| - 1;
      assert SavesTasks(cfg, log[..n], source);
      actions, s := ServiceReplays(cfg, log[..n], source);
      match log[n] {
        case Registered(id, name) =>
          RegisteringIsApplying(cfg, s.db, id, name);
          actions, s := Extend(cfg, actions, s, RegisterTenant(id, name));
        case Saved(tx, op) =>
          actions, s := SaveByWorker(cfg, actions, s, tx, op, source(tx));
      }
    }
  }

  lemma RegisteringIsApplying(cfg: Config, db: TenantDb.Db, id: TenantDb.Uuid, name: string)
    ensures TenantTheorems.Apply(db, TenantDb.Registered(id, name), cfg.cast)
            == db.(tenants := db.tenants[id := name])
  {
  }

  /**
    Refinement: take any interleaving of transactions in which what commits are saves of tasks. A run
    of the service accepts exactly these tasks, in commit order, and ends with the same database.
   */
  lemma InterleavedSavesAreAServiceRun(cfg: Config, connections: set<nat>, interleaved: seq<TenantDb.Action>,
                                       source: TenantDb.TxId -> Source)
    returns (actions: seq<Action>)
    requires cfg.hasRepo
    requires SavesTasks(cfg, TenantDb.Run(TenantTheorems.Initial(connections), interleaved, cfg.cast).log, source)
    ensures var pooled := TenantDb.Run(TenantTheorems.Initial(connections), interleaved, cfg.cast);
            var service := Run(cfg, NewService(1, 1), actions);
            service.db == pooled.db && AcceptedTasks(service, Tasks(pooled.log, source))
  {
    var pooled := TenantDb.Run(TenantTheorems.Initial(connections), interleaved, cfg.cast);
    TenantTheorems.EveryRunIsSerializable(connections, interleaved, cfg.cast);
    var service;
    actions, service := ServiceReplays(cfg, pooled.log, source);
  }
}
