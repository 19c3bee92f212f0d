/** What row-level security and transaction-local settings guarantee over every run, with no
    assumption on how tenants choose record ids. */
module TenantTheorems {
  import opened Wrappers
  import opened TenantDb

  function Initial(connections: set<nat>): State {
    State(Db(map[], map[]), map c | c in connections :: None, map[], map[], [])
  }

  /** However connections were used and reused, a free one is invisible to every policy. */
  lemma IdleConnectionCarriesNoTenant(connections: set<nat>, actions: seq<Action>, cast: Cast, c: nat)
    requires c in Run(Initial(connections), actions, cast).idle
    ensures TenantOf(Run(Initial(connections), actions, cast).idle[c], cast) == NoTenant
  {
    RunKeepsInv(Initial(connections), actions, cast);
  }

  // ----- the policies, whatever the setting of the connection -----

  /** The policy of every table: it holds of a row exactly if the setting is the row's tenant. An
      unset or empty setting is NULL; any other text that is no UUID is an error. */
  lemma PolicyMeaning(row: Row, setting: Option<string>, cast: Cast)
    ensures Visible(row, TenantOf(setting, cast)) <==>
            setting.Some? && setting.value != "" && cast(setting.value) == Some(row.tenant)
    ensures TenantOf(setting, cast).CastFails? <==>
            setting.Some? && setting.value != "" && cast(setting.value) == None
  {
  }

  /** A read answers the rows that satisfy both the WHERE clause and the policy. */
  lemma ReadObeysPolicy(db: Db, setting: Option<string>, tenant: string, pick: Key, cast: Cast)
    ensures var effect := Statement(db, setting, tenant, GetDevices, pick, cast);
            && (effect.Error? <==>
                  cast(tenant) == None || (setting.Some? && setting.value != "" && cast(setting.value) == None))
            && (effect.Answer? ==> forall k :: k in effect.found <==>
                  && k in db.rows && k.table == Devices && cast(tenant) == Some(db.rows[k].tenant)
                  && setting.Some? && cast(setting.value) == Some(db.rows[k].tenant))
            && (effect.Answer? ==> forall k :: k in effect.found ==> effect.found[k] == db.rows[k])
            && !effect.Staged?
  {
    assert cast("") == None;
  }

  /** A write goes through exactly if the setting is the tenant it writes for, and the row it would
      replace, if any, is that tenant's. */
  lemma WriteObeysPolicy(db: Db, setting: Option<string>, tenant: string, op: Op, pick: Key, cast: Cast)
    requires Writes(op)
    ensures var effect := Statement(db, setting, tenant, op, pick, cast);
            effect.Staged? <==>
              && Target(op, cast).Some? && cast(tenant).Some?
              && setting.Some? && cast(setting.value) == cast(tenant)
              && var k := Target(op, cast).value;
                 if k in db.rows then db.rows[k].tenant == cast(tenant).value else cast(tenant).value in db.tenants
  {
    assert cast("") == None;
  }

  // ----- serializability -----

  function Apply(db: Db, entry: LogEntry, cast: Cast): Db {
    match entry
    case Registered(id, name) => db.(tenants := db.tenants[id := name])
    case Saved(tx, op) => if Writes(op) then Save(db, tx.tenant, op, cast) else db
  }

  function Replay(log: seq<LogEntry>, cast: Cast): Db {
    if log == [] then Db(map[], map[]) else Apply(Replay(log[..|log| - 1], cast), log[|log| - 1], cast)
  }

  lemma StepIsSerializable(s: State, a: Action, cast: Cast)
    requires Inv(s, cast) && s.db == Replay(s.log, cast)
    ensures var s' := Step(s, a, cast); s'.db == Replay(s'.log, cast)
  {
    hide IdleBlank, ConnsHeldOnce, KeysHeldOnce, WriteStatement;
    var s' := Step(s, a, cast);
    if Enabled(s, a, cast) {
      match a {
        case RegisterTenant(id, name) => assert s'.log[..|s.log|] == s.log;
        case CommitTx(tx) => CommitIsSerial(s, tx, s', cast);
        case CommitReplyLost(tx) => CommitIsSerial(s, tx, s', cast);
        case _ =>
      }
    }
  }

  lemma CommitIsSerial(s: State, tx: TxId, s': State, cast: Cast)
    requires tx in s.active && s.active[tx].phase.Executed? && TxOk(s, tx, cast) && s.db == Replay(s.log, cast)
    requires s'.db == Commit(s.db, s.active[tx].phase.effect)
    requires s'.log == if Writes(s.active[tx].op) then s.log + [Saved(tx, s.active[tx].op)] else s.log
    ensures s'.db == Replay(s'.log, cast)
  {
    if Writes(s.active[tx].op) {
      assert s'.log[..|s.log|] == s.log;
    }
  }

  lemma {:induction false} RunStaysSerializable(s: State, actions: seq<Action>, cast: Cast)
    requires Inv(s, cast) && s.db == Replay(s.log, cast)
    ensures var s' := Run(s, actions, cast); s'.db == Replay(s'.log, cast)
    decreases |actions|
  {
    hide Inv, Replay;
    if actions != [] {
      StepIsSerializable(s, actions[0], cast);
      StepKeepsInv(s, actions[0], cast);
      RunStaysSerializable(Step(s, actions[0], cast), actions[1..], cast);
    }
  }

  /** Every interleaving leaves the database its transactions would leave one after the other, in
      the order of their commits. */
  lemma EveryRunIsSerializable(connections: set<nat>, actions: seq<Action>, cast: Cast)
    ensures var s := Run(Initial(connections), actions, cast); s.db == Replay(s.log, cast)
  {
    RunStaysSerializable(Initial(connections), actions, cast);
  }

  // ----- all or nothing -----

  ghost predicate InLog(s: State, tx: TxId) {
    exists i :: 0 <= i < |s.log| && s.log[i].Saved? && s.log[i].tx == tx
  }

  /** An open transaction has no trace in the database, a transaction reported as done has, and
      one reported as failed has none unless the reply to its COMMIT was lost. */
  ghost predicate AtomicInv(s: State, lost: set<TxId>) {
    && (forall tx :: tx in s.active ==> tx !in s.outcomes && tx !in lost && !InLog(s, tx))
    && (forall i :: 0 <= i < |s.log| && s.log[i].Saved? ==> s.log[i].tx in s.outcomes)
    && (forall tx :: tx in lost ==> tx in s.outcomes)
    && (forall tx :: tx in s.outcomes && s.outcomes[tx].Done? && s.outcomes[tx].effect.Staged? ==> InLog(s, tx))
    && (forall tx :: tx in s.outcomes && s.outcomes[tx].Failed? && tx !in lost ==> !InLog(s, tx))
    && (forall i, j :: 0 <= i < j < |s.log| && s.log[i].Saved? && s.log[j].Saved? ==> s.log[i].tx != s.log[j].tx)
  }

  function LostBy(a: Action): set<TxId> {
    if a.CommitReplyLost? then {a.tx} else {}
  }

  function Lost(s: State, actions: seq<Action>, cast: Cast): set<TxId>
    decreases |actions|
  {
    if actions == [] then {}
    else
      (if Enabled(s, actions[0], cast) then LostBy(actions[0]) else {})
      + Lost(Step(s, actions[0], cast), actions[1..], cast)
  }

  lemma InLogGrows(s: State, s': State, entry: LogEntry)
    requires s'.log == s.log + [entry]
    ensures forall tx :: InLog(s', tx) <==> InLog(s, tx) || (entry.Saved? && entry.tx == tx)
  {
    assert s'.log[|s.log|] == entry;
    forall tx | InLog(s, tx) ensures InLog(s', tx) {
      var i :| 0 <= i < |s.log| && s.log[i].Saved? && s.log[i].tx == tx;
      assert s'.log[i] == s.log[i];
    }
  }

  lemma EndKeepsAtomicInv(s: State, s': State, tx: TxId, outcome: Outcome, entry: Option<LogEntry>,
                          lost: set<TxId>, lost': set<TxId>)
    requires AtomicInv(s, lost) && tx in s.active
    requires s'.active == s.active - {tx} && s'.outcomes == s.outcomes[tx := outcome]
    requires s'.log == if entry.Some? then s.log + [entry.value] else s.log
    requires entry.Some? ==> entry.value.Saved? && entry.value.tx == tx
    requires outcome.Done? && outcome.effect.Staged? ==> entry.Some?
    requires lost' == lost || lost' == lost + {tx}
    requires outcome.Failed? && entry.Some? ==> tx in lost'
    ensures AtomicInv(s', lost')
  {
    if entry.Some? {
      InLogGrows(s, s', entry.value);
    } else {
      assert forall x :: InLog(s', x) <==> InLog(s, x);
    }
  }

  lemma CommitKeepsAtomicInv(s: State, a: Action, cast: Cast, lost: set<TxId>)
    requires Inv(s, cast) && AtomicInv(s, lost) && Enabled(s, a, cast) && (a.CommitTx? || a.CommitReplyLost?)
    ensures AtomicInv(Step(s, a, cast), lost + LostBy(a))
  {
    hide IdleBlank, ConnsHeldOnce, KeysHeldOnce, Statement, WriteStatement, Waits, PickFits, AtomicInv;
    var t := s.active[a.tx];
    assert TxOk(s, a.tx, cast);
    var entry := if Writes(t.op) then Some(Saved(a.tx, t.op)) else None;
    var outcome := if a.CommitTx? then Done(t.phase.effect) else Failed;
    assert lost + {} == lost;
    EndKeepsAtomicInv(s, Step(s, a, cast), a.tx, outcome, entry, lost, lost + LostBy(a));
  }

  lemma OtherStepsKeepAtomicInv(s: State, a: Action, cast: Cast, lost: set<TxId>)
    requires AtomicInv(s, lost) && Enabled(s, a, cast) && !a.CommitTx? && !a.CommitReplyLost?
    ensures AtomicInv(Step(s, a, cast), lost)
  {
    hide Statement, Waits, Locked, PickFits;
    var s' := Step(s, a, cast);
    if |s'.log| > |s.log| {
      InLogGrows(s, s', s'.log[|s.log|]);
    } else {
      assert s'.log == s.log;
      assert forall tx :: InLog(s', tx) <==> InLog(s, tx);
    }
  }

  lemma StepKeepsAtomicInv(s: State, a: Action, cast: Cast, lost: set<TxId>)
    requires Inv(s, cast) && AtomicInv(s, lost) && Enabled(s, a, cast)
    ensures AtomicInv(Step(s, a, cast), lost + LostBy(a))
  {
    hide AtomicInv, Inv;
    if a.CommitTx? || a.CommitReplyLost? {
      CommitKeepsAtomicInv(s, a, cast, lost);
    } else {
      OtherStepsKeepAtomicInv(s, a, cast, lost);
      assert lost + LostBy(a) == lost;
    }
  }

  lemma {:induction false} RunKeepsAtomicInv(s: State, actions: seq<Action>, cast: Cast, lost: set<TxId>)
    requires Inv(s, cast) && AtomicInv(s, lost)
    ensures AtomicInv(Run(s, actions, cast), lost + Lost(s, actions, cast))
    decreases |actions|
  {
    hide Inv, AtomicInv;
    if actions == [] {
      assert lost + Lost(s, actions, cast) == lost;
    } else {
      var a, s1 := actions[0], Step(s, actions[0], cast);
      var now := if Enabled(s, a, cast) then LostBy(a) else {};
      if Enabled(s, a, cast) {
        StepKeepsAtomicInv(s, a, cast, lost);
      }
      StepKeepsInv(s, a, cast);
      assert lost + {} == lost;
      RunKeepsAtomicInv(s1, actions[1..], cast, lost + now);
      assert lost + now + Lost(s1, actions[1..], cast) == lost + Lost(s, actions, cast);
    }
  }

  lemma EveryTransactionIsAllOrNothing(connections: set<nat>, actions: seq<Action>, cast: Cast, tx: TxId)
    ensures var s := Run(Initial(connections), actions, cast);
            && (tx in s.active ==> !InLog(s, tx))
            && (tx in s.outcomes && s.outcomes[tx].Done? && s.outcomes[tx].effect.Staged? ==> InLog(s, tx))
            && (tx in s.outcomes && s.outcomes[tx].Failed? && InLog(s, tx) ==>
                tx in Lost(Initial(connections), actions, cast))
            && (forall i, j :: 0 <= i < j < |s.log| && s.log[i].Saved? && s.log[j].Saved? ==>
                s.log[i].tx != s.log[j].tx)
  {
    RunKeepsAtomicInv(Initial(connections), actions, cast, {});
  }

  // ----- a tenant's rows -----

  /** The rows of one tenant. */
  function View(db: Db, tenant: Uuid): map<Key, Row> {
    map k | k in db.rows && db.rows[k].tenant == tenant :: db.rows[k]
  }

  predicate CommitsFor(a: Action, tenant: Uuid, cast: Cast) {
    (a.CommitTx? || a.CommitReplyLost?) && cast(a.tx.tenant) == Some(tenant)
  }

  /** What a write stages belongs to its own tenant, and so does the row it replaces, if any. */
  lemma WriteStaysInTenant(db: Db, tenant: string, op: Op, cast: Cast)
    requires Writes(op) && WriteStatement(db, Some(tenant), tenant, op, cast).Staged?
    ensures var effect := WriteStatement(db, Some(tenant), tenant, op, cast);
            && cast(tenant) == Some(effect.row.tenant)
            && (effect.key in db.rows ==> db.rows[effect.key].tenant == effect.row.tenant)
  {
  }

  lemma StepRespectsRows(s: State, a: Action, cast: Cast, tenant: Uuid)
    requires Inv(s, cast)
    ensures var s' := Step(s, a, cast);
            && (forall k :: k in s.db.rows ==> k in s'.db.rows && s'.db.rows[k].tenant == s.db.rows[k].tenant)
            && (!CommitsFor(a, tenant, cast) ==> View(s'.db, tenant) == View(s.db, tenant))
  {
    hide IdleBlank, ConnsHeldOnce, KeysHeldOnce, WriteStatement, ReadStatement;
    if Enabled(s, a, cast) && (a.CommitTx? || a.CommitReplyLost?) {
      var t := s.active[a.tx];
      assert TxOk(s, a.tx, cast);
      if t.phase.effect.Staged? {
        WriteStaysInTenant(s.db, a.tx.tenant, t.op, cast);
      }
    }
  }

  /** No run removes a row or hands it to another tenant. */
  lemma {:induction false} RowsKeepTheirTenant(s: State, actions: seq<Action>, cast: Cast, k: Key)
    requires Inv(s, cast) && k in s.db.rows
    ensures var s' := Run(s, actions, cast); k in s'.db.rows && s'.db.rows[k].tenant == s.db.rows[k].tenant
    decreases |actions|
  {
    hide Inv;
    if actions != [] {
      StepRespectsRows(s, actions[0], cast, s.db.rows[k].tenant);
      StepKeepsInv(s, actions[0], cast);
      RowsKeepTheirTenant(Step(s, actions[0], cast), actions[1..], cast, k);
    }
  }

  /** Whatever the other tenants do, a tenant's rows change only when it commits something itself. */
  lemma {:induction false} OthersCannotTouchTenant(s: State, actions: seq<Action>, cast: Cast, tenant: Uuid)
    requires Inv(s, cast)
    requires forall i :: 0 <= i < |actions| ==> !CommitsFor(actions[i], tenant, cast)
    ensures View(Run(s, actions, cast).db, tenant) == View(s.db, tenant)
    decreases |actions|
  {
    hide Inv;
    if actions != [] {
      StepRespectsRows(s, actions[0], cast, tenant);
      StepKeepsInv(s, actions[0], cast);
      OthersCannotTouchTenant(Step(s, actions[0], cast), actions[1..], cast, tenant);
    }
  }

  /** A transaction that has seen an error can only fail, whatever happens around it. */
  lemma {:induction false} AbortedMeansFailed(s: State, actions: seq<Action>, cast: Cast, tx: TxId)
    requires tx in s.active && s.active[tx].phase.Aborted? && tx !in s.outcomes
    ensures var s' := Run(s, actions, cast);
            if tx in s'.active then s'.active[tx].phase.Aborted? && tx !in s'.outcomes
            else tx in s'.outcomes && s'.outcomes[tx] == Failed
    decreases |actions|
  {
    hide Statement, Waits, Locked, PickFits, Commit;
    if actions != [] {
      var s1 := Step(s, actions[0], cast);
      if tx in s1.active {
        AbortedMeansFailed(s1, actions[1..], cast, tx);
      } else {
        OutcomeIsFinal(s1, actions[1..], cast, tx);
      }
    }
  }

  lemma {:induction false} OutcomeIsFinal(s: State, actions: seq<Action>, cast: Cast, tx: TxId)
    requires tx !in s.active && tx in s.outcomes
    ensures var s' := Run(s, actions, cast); tx !in s'.active && tx in s'.outcomes && s'.outcomes[tx] == s.outcomes[tx]
    decreases |actions|
  {
    hide Statement, Waits, Locked, PickFits, Commit;
    if actions != [] {
      OutcomeIsFinal(Step(s, actions[0], cast), actions[1..], cast, tx);
    }
  }

  /** A save whose id is a row of another tenant never commits, on any continuation of the run. */
  lemma ForeignConflictFails(s: State, tx: TxId, pick: Key, rest: seq<Action>, cast: Cast)
    requires Inv(s, cast) && tx !in s.outcomes && Enabled(s, Execute(tx, pick), cast)
    requires Writes(s.active[tx].op) && Target(s.active[tx].op, cast).Some?
    requires var key := Target(s.active[tx].op, cast).value;
             key in s.db.rows && cast(tx.tenant) != Some(s.db.rows[key].tenant)
    ensures var s' := Run(s, [Execute(tx, pick)] + rest, cast);
            if tx in s'.active then s'.active[tx].phase.Aborted? else tx in s'.outcomes && s'.outcomes[tx] == Failed
  {
    var s1 := Step(s, Execute(tx, pick), cast);
    assert TxOk(s, tx, cast);
    AbortedMeansFailed(s1, rest, cast, tx);
    assert ([Execute(tx, pick)] + rest)[1..] == rest;
  }

  /** With the tenant set, the policy adds nothing to the WHERE clause: a get returns exactly the
      tenant's rows of the whole table. */
  lemma PolicyFilteredReadIsPlainFilter(s: State, tx: TxId, pick: Key, cast: Cast, tenant: Uuid)
    requires Inv(s, cast) && tx in s.active && s.active[tx].phase.TenantSet? && s.active[tx].op.GetDevices?
    requires cast(tx.tenant) == Some(tenant)
    ensures Statement(s.db, s.active[tx].setting, tx.tenant, GetDevices, pick, cast)
            == Answer(map k | k in View(s.db, tenant) && k.table == Devices :: s.db.rows[k])
  {
    assert TxOk(s, tx, cast);
    assert TenantOf(Some(tx.tenant), cast) == Is(tenant);
  }
}
