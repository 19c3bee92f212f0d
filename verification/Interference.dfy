/**
  When tenants can interfere at all: exactly when two of them save under one id. Record ids are
  global, so a tenant that takes an id first makes the other tenant's save of that id fail.
 */
module Interference {
  import opened Wrappers
  import opened TenantDb
  import opened TenantTheorems
  import opened Noninterference

  lemma {:induction false} Snoc(s: State, actions: seq<Action>, a: Action, cast: Cast)
    requires Legal(s, actions, cast) && Enabled(Run(s, actions, cast), a, cast)
    ensures Legal(s, actions + [a], cast)
    ensures Run(s, actions + [a], cast) == Step(Run(s, actions, cast), a, cast)
    decreases |actions|
  {
    hide Enabled, Step;
    if actions == [] {
      assert actions + [a] == [a] && [a][1..] == [];
    } else {
      Snoc(Step(s, actions[0], cast), actions[1..], a, cast);
      assert (actions + [a])[1..] == actions[1..] + [a];
    }
  }

  /** Two tenants, and a save of each under one id. */
  datatype Clash = Clash(cast: Cast, a: string, b: string, opA: Op, opB: Op)

  predicate Valid(c: Clash) {
    && c.cast(c.a).Some? && c.cast(c.b).Some? && c.cast(c.a) != c.cast(c.b)
    && Writes(c.opA) && Writes(c.opB)
    && Target(c.opA, c.cast).Some? && Target(c.opA, c.cast) == Target(c.opB, c.cast)
  }

  function A(c: Clash): Uuid
    requires Valid(c)
  {
    c.cast(c.a).value
  }

  function B(c: Clash): Uuid
    requires Valid(c)
  {
    c.cast(c.b).value
  }

  function Shared(c: Clash): Key
    requires Valid(c)
  {
    Target(c.opA, c.cast).value
  }

  function ByA(c: Clash): TxId {
    TxId(c.a, 0)
  }

  function ByB(c: Clash): TxId {
    TxId(c.b, 0)
  }

  /** A legal run from one free connection. */
  ghost predicate Leads(cast: Cast, actions: seq<Action>, s: State) {
    Legal(Initial({0}), actions, cast) && Run(Initial({0}), actions, cast) == s
  }

  lemma Extend(cast: Cast, actions: seq<Action>, s: State, a: Action) returns (actions': seq<Action>, s': State)
    requires Leads(cast, actions, s) && Enabled(s, a, cast)
    ensures actions' == actions + [a] && s' == Step(s, a, cast) && Leads(cast, actions', s')
  {
    Snoc(Initial({0}), actions, a, cast);
    actions', s' := actions + [a], Step(s, a, cast);
  }

  /** Ready for a save: nothing is open and connection 0 is free. */
  ghost predicate Ready(cast: Cast, s: State, tx: TxId) {
    && s.active == map[] && 0 in s.idle && Blank(s.idle[0]) && tx !in s.outcomes
    && cast(tx.tenant).Some? && cast(tx.tenant).value in s.db.tenants
  }

  function SaveSteps(tx: TxId, op: Op, pick: Key): seq<Action> {
    [Begin(tx, 0, op), SetLocal(tx), Execute(tx, pick)]
  }

  /** One transaction saves, up to and including its statement. */
  lemma SaveUnderway(cast: Cast, before: seq<Action>, s: State, tx: TxId, op: Op, pick: Key)
    returns (actions: seq<Action>, s': State)
    requires Leads(cast, before, s) && Ready(cast, s, tx) && Writes(op)
    ensures Leads(cast, actions, s') && actions == before + SaveSteps(tx, op, pick)
    ensures s'.active.Keys == {tx} && s'.active[tx].conn == 0 && s'.active[tx].op == op
    ensures s'.db == s.db && s'.outcomes == s.outcomes
    ensures s'.active[tx].phase == var effect := WriteStatement(s.db, Some(tx.tenant), tx.tenant, op, cast);
                                   if effect.Error? then Aborted else Executed(effect)
  {
    hide WriteStatement;
    actions, s' := Extend(cast, before, s, Begin(tx, 0, op));
    actions, s' := Extend(cast, actions, s', SetLocal(tx));
    assert s'.active == map[tx := Tx(0, op, Some(tx.tenant), TenantSet)];
    actions, s' := Extend(cast, actions, s', Execute(tx, pick));
  }

  /** Tenant B commits its save of the shared id. */
  lemma SavedByB(c: Clash, registered: seq<Action>, s: State) returns (actions: seq<Action>, s': State)
    requires Valid(c) && Leads(c.cast, registered, s)
    requires Ready(c.cast, s, ByB(c)) && Ready(c.cast, s, ByA(c)) && s.db.rows == map[]
    ensures Leads(c.cast, actions, s') && Ready(c.cast, s', ByA(c))
    ensures actions == registered + (SaveSteps(ByB(c), c.opB, Shared(c)) + [CommitTx(ByB(c))])
    ensures Shared(c) in s'.db.rows && s'.db.rows[Shared(c)].tenant == B(c)
  {
    actions, s' := SaveUnderway(c.cast, registered, s, ByB(c), c.opB, Shared(c));
    assert c.cast("") == None && c.b != "";
    assert s'.active[ByB(c)].phase.Executed?;
    actions, s' := Extend(c.cast, actions, s', CommitTx(ByB(c)));
  }

  lemma Registered(c: Clash) returns (both: seq<Action>, s: State, one: seq<Action>, t: State)
    requires Valid(c)
    ensures both == [RegisterTenant(B(c), "B"), RegisterTenant(A(c), "A")] && Leads(c.cast, both, s)
    ensures one == [RegisterTenant(A(c), "A")] && Leads(c.cast, one, t)
    ensures s.db.rows == map[] && Ready(c.cast, s, ByA(c)) && Ready(c.cast, s, ByB(c))
    ensures t.db.rows == map[] && Ready(c.cast, t, ByA(c))
  {
    both, s := Extend(c.cast, [], Initial({0}), RegisterTenant(B(c), "B"));
    both, s := Extend(c.cast, both, s, RegisterTenant(A(c), "A"));
    one, t := Extend(c.cast, [], Initial({0}), RegisterTenant(A(c), "A"));
  }

  /** Tenant A's save has failed for good: every continuation reports failure. */
  ghost predicate FailedForGood(c: Clash, s: State) {
    forall rest :: var last := Run(s, rest, c.cast); ByA(c) in last.outcomes ==> last.outcomes[ByA(c)] == Failed
  }

  /** Tenant A's save was reported as done, and its row is there. */
  predicate SavedForA(c: Clash, s: State)
    requires Valid(c)
  {
    && ByA(c) in s.outcomes && s.outcomes[ByA(c)].Done?
    && Shared(c) in s.db.rows && s.db.rows[Shared(c)].tenant == A(c)
  }

  function Schedule(c: Clash): seq<Action>
    requires Valid(c)
  {
    [RegisterTenant(B(c), "B"), RegisterTenant(A(c), "A")]
    + (SaveSteps(ByB(c), c.opB, Shared(c)) + [CommitTx(ByB(c))])
    + SaveSteps(ByA(c), c.opA, Shared(c))
  }

  /** The two ways the same save of tenant A goes: `full` after tenant B's save, `alone` without it. */
  lemma SavesDiverge(c: Clash) returns (full: State, alone: State)
    requires Valid(c)
    ensures Leads(c.cast, Schedule(c), full) && Leads(c.cast, Purge(Schedule(c), A(c), c.cast), alone)
    ensures ByA(c) in full.active && full.active[ByA(c)].phase.Aborted? && ByA(c) !in full.outcomes
    ensures ByA(c) in alone.active && alone.active[ByA(c)].phase.Executed? && ByA(c) !in alone.outcomes
    ensures alone.active[ByA(c)].phase.effect == Staged(Shared(c), Row(A(c), NewColumns(c.opA)))
    ensures alone.active[ByA(c)].op == c.opA
    ensures Shared(c) in full.db.rows && full.db.rows[Shared(c)].tenant == B(c) && alone.db.rows == map[]
  {
    hide Legal, Run, Enabled, Step;
    var both, s, one, t := Registered(c);
    var saved, s1 := SavedByB(c, both, s);
    var actions, purged;
    actions, full := SaveUnderway(c.cast, saved, s1, ByA(c), c.opA, Shared(c));
    purged, alone := SaveUnderway(c.cast, one, t, ByA(c), c.opA, Shared(c));
    assert c.cast("") == None && c.a != "";
    PurgeKeepsA(c);
  }

  /**
    Noninterference fails as soon as two tenants save under one id, in all three ways it could. The
    full run can be executed and its purged copy cannot (tenant A rolls back where it would commit);
    in the full run tenant A's save fails on every continuation, while alone it is done; and then
    tenant A's views differ.
   */
  lemma SharedIdsInterfere(c: Clash)
    requires Valid(c)
    ensures Legal(Initial({0}), Schedule(c) + [Rollback(ByA(c))], c.cast)
    ensures !Legal(Initial({0}), Purge(Schedule(c) + [Rollback(ByA(c))], A(c), c.cast), c.cast)
    ensures Legal(Initial({0}), Purge(Schedule(c), A(c), c.cast) + [CommitTx(ByA(c))], c.cast)
    ensures var full := Run(Initial({0}), Schedule(c) + [Rollback(ByA(c))], c.cast);
            var alone := Run(Initial({0}), Purge(Schedule(c), A(c), c.cast) + [CommitTx(ByA(c))], c.cast);
            && FailedForGood(c, Run(Initial({0}), Schedule(c), c.cast))
            && ByA(c) in full.outcomes && full.outcomes[ByA(c)] == Failed
            && SavedForA(c, alone)
            && Shared(c) !in View(full.db, A(c)) && Shared(c) in View(alone.db, A(c))
  {
    var tx, cast := ByA(c), c.cast;
    var full, alone := SavesDiverge(c);
    forall rest ensures var last := Run(full, rest, cast); tx in last.outcomes ==> last.outcomes[tx] == Failed {
      AbortedMeansFailed(full, rest, cast, tx);
      EndedIsNotOpen(full, rest, cast, tx);
    }
    hide Schedule, Legal, Run, Purge;
    var rolledBack, full' := Extend(cast, Schedule(c), full, Rollback(tx));
    var committed, alone' := Extend(cast, Purge(Schedule(c), A(c), cast), alone, CommitTx(tx));
    PurgeConcat(Schedule(c), [Rollback(tx)], A(c), cast);
    AllOwn([Rollback(tx)], A(c), cast);
    NotLegalThere(Initial({0}), Purge(Schedule(c), A(c), cast), Rollback(tx), cast);
  }

  /** A transaction that failed for good is not open any more when its outcome is known. */
  lemma {:induction false} EndedIsNotOpen(s: State, rest: seq<Action>, cast: Cast, tx: TxId)
    requires tx in s.active && tx !in s.outcomes
    ensures var last := Run(s, rest, cast); tx in last.outcomes ==> tx !in last.active
    decreases |rest|
  {
    hide Statement, Waits, Locked, PickFits, Commit;
    if rest != [] {
      var s1 := Step(s, rest[0], cast);
      if tx in s1.active {
        EndedIsNotOpen(s1, rest[1..], cast, tx);
      } else {
        OutcomeIsFinal(s1, rest[1..], cast, tx);
      }
    }
  }

  lemma {:induction false} NotLegalThere(s: State, actions: seq<Action>, a: Action, cast: Cast)
    requires Legal(s, actions, cast) && !Enabled(Run(s, actions, cast), a, cast)
    ensures !Legal(s, actions + [a], cast)
    decreases |actions|
  {
    hide Enabled, Step;
    if actions == [] {
      assert actions + [a] == [a] && [a][1..] == [];
    } else {
      NotLegalThere(Step(s, actions[0], cast), actions[1..], a, cast);
      assert (actions + [a])[1..] == actions[1..] + [a];
    }
  }

  lemma PurgeKeepsA(c: Clash)
    requires Valid(c)
    ensures Purge(Schedule(c), A(c), c.cast) == [RegisterTenant(A(c), "A")] + SaveSteps(ByA(c), c.opA, Shared(c))
  {
    var registered := [RegisterTenant(B(c), "B"), RegisterTenant(A(c), "A")];
    var byB, byA := SaveSteps(ByB(c), c.opB, Shared(c)) + [CommitTx(ByB(c))], SaveSteps(ByA(c), c.opA, Shared(c));
    PurgeConcat(registered + byB, byA, A(c), c.cast);
    PurgeConcat(registered, byB, A(c), c.cast);
    NothingOwn(byB, A(c), c.cast);
    AllOwn(byA, A(c), c.cast);
    assert registered[1..] == [RegisterTenant(A(c), "A")] && registered[1..][1..] == [];
  }

  lemma {:induction false} PurgeConcat(x: seq<Action>, y: seq<Action>, tenant: Uuid, cast: Cast)
    ensures Purge(x + y, tenant, cast) == Purge(x, tenant, cast) + Purge(y, tenant, cast)
  {
    if x == [] {
      assert x + y == y;
    } else {
      assert (x + y)[1..] == x[1..] + y;
      PurgeConcat(x[1..], y, tenant, cast);
    }
  }

  lemma {:induction false} NothingOwn(actions: seq<Action>, tenant: Uuid, cast: Cast)
    requires forall i :: 0 <= i < |actions| ==> !OwnAction(actions[i], tenant, cast)
    ensures Purge(actions, tenant, cast) == []
  {
    if actions != [] {
      NothingOwn(actions[1..], tenant, cast);
    }
  }

  lemma {:induction false} AllOwn(actions: seq<Action>, tenant: Uuid, cast: Cast)
    requires forall i :: 0 <= i < |actions| ==> OwnAction(actions[i], tenant, cast)
    ensures Purge(actions, tenant, cast) == actions
  {
    if actions != [] {
      AllOwn(actions[1..], tenant, cast);
    }
  }

  // ----- exactly when -----

  /** An operation some client runs, as the tenant it names. */
  datatype Job = Job(tenant: string, op: Op)

  ghost predicate Runs(jobs: iset<Job>, actions: seq<Action>) {
    forall i :: 0 <= i < |actions| && actions[i].Begin? ==> Job(actions[i].tx.tenant, actions[i].op) in jobs
  }

  /** The tenant sees of this run what it would see of the purged one. */
  ghost predicate Undisturbed(connections: set<nat>, actions: seq<Action>, tenant: Uuid, cast: Cast) {
    var purged := Purge(actions, tenant, cast);
    && Legal(Initial(connections), purged, cast)
    && var full, alone := Run(Initial(connections), actions, cast), Run(Initial(connections), purged, cast);
       && View(full.db, tenant) == View(alone.db, tenant)
       && forall tx :: Own(tx, tenant, cast) ==>
            && (tx in full.outcomes <==> tx in alone.outcomes)
            && (tx in full.outcomes ==> full.outcomes[tx] == alone.outcomes[tx])
  }

  ghost predicate NeverDisturbed(jobs: iset<Job>, tenant: Uuid, cast: Cast) {
    forall connections, actions :: Legal(Initial(connections), actions, cast) && Runs(jobs, actions) ==>
      Undisturbed(connections, actions, tenant, cast)
  }

  /** The job saves under this id, for some tenant. */
  predicate SavesUnder(job: Job, k: Key, cast: Cast) {
    Writes(job.op) && Target(job.op, cast) == Some(k) && cast(job.tenant).Some?
  }

  ghost predicate SharesAnId(jobs: iset<Job>, tenant: Uuid, cast: Cast) {
    exists x, y, k :: x in jobs && y in jobs && SavesUnder(x, k, cast) && SavesUnder(y, k, cast)
                      && cast(x.tenant) == Some(tenant) && cast(y.tenant) != Some(tenant)
  }

  /**
    Exactly when a tenant is isolated. Whatever operations the clients of all tenants run: every
    interleaved run of them looks to the tenant as if it were alone, if and only if no save of
    another tenant uses an id that a save of this tenant uses.
   */
  lemma IsolatedExactlyWhenNoIdIsShared(jobs: iset<Job>, tenant: Uuid, cast: Cast)
    ensures NeverDisturbed(jobs, tenant, cast) <==> !SharesAnId(jobs, tenant, cast)
  {
    hide Legal, Run, Purge, SavesUnder;
    if SharesAnId(jobs, tenant, cast) {
      var x, y, k :| x in jobs && y in jobs && SavesUnder(x, k, cast) && SavesUnder(y, k, cast)
                     && cast(x.tenant) == Some(tenant) && cast(y.tenant) != Some(tenant);
      ClashDisturbs(jobs, x, y, k, tenant, cast);
    } else {
      forall connections, actions | Legal(Initial(connections), actions, cast) && Runs(jobs, actions)
        ensures Undisturbed(connections, actions, tenant, cast)
      {
        DisjointJobsAreFine(jobs, connections, actions, tenant, cast);
      }
    }
  }

  lemma ClashDisturbs(jobs: iset<Job>, x: Job, y: Job, k: Key, tenant: Uuid, cast: Cast)
    requires x in jobs && y in jobs && SavesUnder(x, k, cast) && SavesUnder(y, k, cast)
    requires cast(x.tenant) == Some(tenant) && cast(y.tenant) != Some(tenant)
    ensures !NeverDisturbed(jobs, tenant, cast)
  {
    hide Legal, Run, Purge;
    var c := Clash(cast, x.tenant, y.tenant, x.op, y.op);
    SharedIdsInterfere(c);
    var actions := Schedule(c) + [Rollback(ByA(c))];
    assert Runs(jobs, actions);
    assert !Undisturbed({0}, actions, tenant, cast);
  }

  lemma DisjointJobsAreFine(jobs: iset<Job>, connections: set<nat>, actions: seq<Action>, tenant: Uuid, cast: Cast)
    requires !SharesAnId(jobs, tenant, cast)
    requires Legal(Initial(connections), actions, cast) && Runs(jobs, actions)
    ensures Undisturbed(connections, actions, tenant, cast)
  {
    hide Legal, Run, Purge;
    ghost var mine := (k: Key) => exists x :: x in jobs && SavesUnder(x, k, cast) && cast(x.tenant) == Some(tenant);
    forall i | 0 <= i < |actions| && actions[i].Begin?
      ensures UsesOwnIds(actions[i].tx, actions[i].op, tenant, mine, cast)
    {
      var job := Job(actions[i].tx.tenant, actions[i].op);
      if Writes(job.op) && Target(job.op, cast).Some? && cast(job.tenant).Some? {
        assert SavesUnder(job, Target(job.op, cast).value, cast);
      }
    }
    TenantsDoNotInterfere(connections, actions, tenant, mine, cast);
  }
}
