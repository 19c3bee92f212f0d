/** When the database has stopped changing: exactly when no accepted task is left that would change
    it and that a worker can still get to. */
module RowFinality {
  import opened Wrappers
  import TenantDb
  import Repository
  import opened Ingestion
  import opened IngestionTheorems

  /** Saving task i would write the row under this key: the id is the task's, and a row that is
      already there belongs to the task's tenant. */
  predicate CanSave(cfg: Config, s: State, i: nat, k: TenantDb.Key) {
    && i < |s.accepted| && cfg.hasRepo
    && var task := s.accepted[i].task;
       && DeviceKey(cfg, task) == Some(k)
       && cfg.cast(task.tenant).Some?
       && (k in s.db.rows ==> s.db.rows[k].tenant == cfg.cast(task.tenant).value)
  }

  ghost predicate SomeWorkerLeft(s: State) {
    exists w :: 0 <= w < |s.workers| && !s.workers[w].Exited?
  }

  /** A worker has the task, or can still come to it. */
  ghost predicate Reachable(s: State, i: nat) {
    InProgress(s, i) || (Queued(s, i) && SomeWorkerLeft(s))
  }

  ghost predicate Changeable(cfg: Config, s: State, k: TenantDb.Key) {
    exists i :: Reachable(s, i) && CanSave(cfg, s, i, k)
  }

  function RowAt(s: State, k: TenantDb.Key): Option<TenantDb.Row> {
    if k in s.db.rows then Some(s.db.rows[k]) else None
  }

  ghost predicate CanChange(cfg: Config, s: State, k: TenantDb.Key) {
    exists actions :: RowAt(Run(cfg, s, actions), k) != RowAt(s, k)
  }

  // ----- nothing else changes the row -----

  lemma FinishChangesOnlyItsRow(cfg: Config, s: State, a: Action, k: TenantDb.Key)
    requires a.Finish? && Enabled(s, a) && !CanSave(cfg, s, s.workers[a.w].ticket, k)
    ensures RowAt(Step(cfg, s, a), k) == RowAt(s, k)
  {
    var task := s.accepted[s.workers[a.w].ticket].task;
    assert cfg.cast("") == None;
  }

  lemma ReachableBefore(cfg: Config, s: State, a: Action, i: nat)
    requires Reachable(Step(cfg, s, a), i) && s.handlers == map[]
    ensures Reachable(s, i)
  {
    hide Process;
    var s' := Step(cfg, s, a);
    if InProgress(s', i) {
      var w :| HeldBy(s', w, i);
      assert HeldBy(s, w, i) || (a == Take(w) && Queued(s, i) && s.workers[w].Idle?);
    } else {
      var w :| 0 <= w < |s'.workers| && !s'.workers[w].Exited?;
      assert !s.workers[w].Exited?;
    }
  }

  lemma StepKeepsRow(cfg: Config, s: State, a: Action, k: TenantDb.Key)
    requires s.draining && s.handlers == map[] && !Changeable(cfg, s, k)
    ensures var s' := Step(cfg, s, a); s'.draining && s'.handlers == map[]
    ensures RowAt(Step(cfg, s, a), k) == RowAt(s, k) && !Changeable(cfg, Step(cfg, s, a), k)
  {
    hide Process, Reachable, DeviceKey;
    var s' := Step(cfg, s, a);
    if a.Finish? && Enabled(s, a) {
      var i := s.workers[a.w].ticket;
      HeldIsReachable(s, a.w);
      FinishChangesOnlyItsRow(cfg, s, a, k);
    }
    forall i | Reachable(s', i) ensures !CanSave(cfg, s', i, k) {
      ReachableBefore(cfg, s, a, i);
      assert !CanSave(cfg, s, i, k);
    }
  }

  lemma HeldIsReachable(s: State, w: nat)
    requires w < |s.workers| && s.workers[w].Busy?
    ensures Reachable(s, s.workers[w].ticket)
  {
    assert HeldBy(s, w, s.workers[w].ticket);
  }

  lemma {:induction false} RunKeepsRow(cfg: Config, s: State, actions: seq<Action>, k: TenantDb.Key)
    requires s.draining && s.handlers == map[] && !Changeable(cfg, s, k)
    ensures RowAt(Run(cfg, s, actions), k) == RowAt(s, k)
    decreases |actions|
  {
    hide Step, Changeable, RowAt;
    if actions != [] {
      StepKeepsRow(cfg, s, actions[0], k);
      RunKeepsRow(cfg, Step(cfg, s, actions[0]), actions[1..], k);
    }
  }

  // ----- and such a task can -----

  /** Workers take the tasks before this one, whose saves fail, and then this one. */
  lemma {:induction false} ReachTask(cfg: Config, s: State, i: nat) returns (actions: seq<Action>, w: nat)
    requires Inv(s) && Reachable(s, i)
    ensures var s' := Run(cfg, s, actions);
            HeldBy(s', w, i) && s'.accepted == s.accepted && s'.db == s.db
    decreases |s.queue|
  {
    hide ReplyInv, Process, TicketInv;
    if v :| HeldBy(s, v, i) {
      actions, w := [], v;
    } else {
      var v: nat :| v < |s.workers| && !s.workers[v].Exited?;
      var s1, first := FreeWorker(cfg, s, v);
      var s2 := Step(cfg, s1, Take(v));
      StepKeepsInv(cfg, s1, Take(v));
      assert HeldBy(s2, v, s.queue[0]);
      assert i == s.queue[0] || Queued(s2, i);
      assert !s2.workers[v].Exited?;
      var rest;
      rest, w := ReachTask(cfg, s2, i);
      Unroll(cfg, s1, Take(v), rest);
      actions := first + ([Take(v)] + rest);
      Concat(cfg, s, first, [Take(v)] + rest);
    }
  }

  /** A busy worker finishes without saving anything. */
  lemma FreeWorker(cfg: Config, s: State, v: nat) returns (s': State, actions: seq<Action>)
    requires Inv(s) && v < |s.workers| && !s.workers[v].Exited?
    ensures s' == Run(cfg, s, actions) && Inv(s') && s'.workers == s.workers[v := Idle]
    ensures s'.queue == s.queue && s'.accepted == s.accepted && s'.db == s.db
  {
    hide ReplyInv;
    actions, s' := [], s;
    if s.workers[v].Busy? {
      assert s.workers[v].ticket in Held(s.workers);
      var finish := Finish(v, 0, Repository.BeginFails);
      s' := Step(cfg, s, finish);
      StepKeepsInv(cfg, s, finish);
      actions := [finish];
      Unroll(cfg, s, finish, []);
      assert [finish] + [] == [finish];
    }
  }

  lemma {:induction false} Concat(cfg: Config, s: State, a: seq<Action>, b: seq<Action>)
    ensures Run(cfg, s, a + b) == Run(cfg, Run(cfg, s, a), b)
    decreases |a|
  {
    hide Step;
    if a == [] {
      assert a + b == b;
    } else {
      assert (a + b)[0] == a[0] && (a + b)[1..] == a[1..] + b;
      Concat(cfg, Step(cfg, s, a[0]), a[1..], b);
    }
  }

  /** The save writes the row, at a time of its own. */
  lemma SaveWrites(cfg: Config, s: State, i: nat, w: nat, k: TenantDb.Key, now: int)
    requires CanSave(cfg, s, i, k) && HeldBy(s, w, i)
    requires cfg.cast(s.accepted[i].task.tenant).value in s.db.tenants
    ensures var s' := Step(cfg, s, Finish(w, now, Repository.NoFault));
            k in s'.db.rows && s'.db.rows[k].columns.DeviceColumns? && s'.db.rows[k].columns.lastSync == now
  {
    assert cfg.cast("") == None;
  }

  lemma TaskCanChangeRow(cfg: Config, s: State, i: nat, k: TenantDb.Key)
    requires Inv(s) && Reachable(s, i) && CanSave(cfg, s, i, k)
    ensures CanChange(cfg, s, k)
  {
    hide Inv, Process, DeviceKey;
    var before, w := ReachTask(cfg, s, i);
    var s1 := Run(cfg, s, before);
    var register := RegisterTenant(cfg.cast(s.accepted[i].task.tenant).value, "");
    var s2 := Step(cfg, s1, register);
    var now := if k in s.db.rows && s.db.rows[k].columns.DeviceColumns? then s.db.rows[k].columns.lastSync + 1 else 0;
    var finish := Finish(w, now, Repository.NoFault);
    SaveWrites(cfg, s2, i, w, k, now);
    Unroll(cfg, s2, finish, []);
    Unroll(cfg, s1, register, [finish]);
    assert [finish] + [] == [finish];
    Concat(cfg, s, before, [register] + [finish]);
    var actions := before + ([register] + [finish]);
    assert Run(cfg, s, actions) == Step(cfg, s2, finish);
    assert RowAt(Run(cfg, s, actions), k) != RowAt(s, k);
  }

  /**
    Exactly when a device row is final. Once the handlers have finished, some continuation changes
    the row if and only if an accepted task for this device, of the tenant that owns the row, is
    held by a worker, or is in the channel while a worker is left.
   */
  lemma RowIsFinalExactly(cfg: Config, s: State, k: TenantDb.Key)
    requires Inv(s) && s.draining && s.handlers == map[]
    ensures CanChange(cfg, s, k) <==> Changeable(cfg, s, k)
  {
    hide Inv, Reachable, CanSave, RowAt;
    if Changeable(cfg, s, k) {
      var i :| Reachable(s, i) && CanSave(cfg, s, i, k);
      TaskCanChangeRow(cfg, s, i, k);
    } else {
      forall actions ensures RowAt(Run(cfg, s, actions), k) == RowAt(s, k) {
        RunKeepsRow(cfg, s, actions, k);
      }
    }
  }
}
