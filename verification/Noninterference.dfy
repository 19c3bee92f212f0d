/**
  Tenants that use disjoint record ids cannot influence one another at all: what a tenant can see
  and the outcome of each of its operations are, after any interleaved run, those of the same run
  with everything the other tenants did removed. (Interference.dfy shows why the ids must be disjoint.)
 */
module Noninterference {
  import opened Wrappers
  import opened TenantDb
  import opened TenantTheorems

  predicate Own(tx: TxId, tenant: Uuid, cast: Cast) {
    cast(tx.tenant) == Some(tenant)
  }

  predicate OwnAction(a: Action, tenant: Uuid, cast: Cast) {
    if a.RegisterTenant? then a.id == tenant else Own(a.tx, tenant, cast)
  }

  function Purge(actions: seq<Action>, tenant: Uuid, cast: Cast): seq<Action> {
    if actions == [] then []
    else (if OwnAction(actions[0], tenant, cast) then [actions[0]] else []) + Purge(actions[1..], tenant, cast)
  }

  /** A schedule that can be executed as it stands: every action is possible when its turn comes. */
  predicate Legal(s: State, actions: seq<Action>, cast: Cast)
    decreases |actions|
  {
    actions == [] || (Enabled(s, actions[0], cast) && Legal(Step(s, actions[0], cast), actions[1..], cast))
  }

  /** A save uses ids reserved for the tenant exactly when it runs for that tenant (a save for no
      tenant at all fails, whatever id it uses). */
  predicate UsesOwnIds(tx: TxId, op: Op, tenant: Uuid, mine: Key -> bool, cast: Cast) {
    Writes(op) && Target(op, cast).Some? && cast(tx.tenant).Some? ==>
      (mine(Target(op, cast).value) <==> Own(tx, tenant, cast))
  }

  ghost predicate DisjointIds(actions: seq<Action>, tenant: Uuid, mine: Key -> bool, cast: Cast) {
    forall i :: 0 <= i < |actions| && actions[i].Begin? ==> UsesOwnIds(actions[i].tx, actions[i].op, tenant, mine, cast)
  }

  // ----- what the tenant cannot tell apart -----

  ghost predicate OwnedRows(db: Db, tenant: Uuid, mine: Key -> bool) {
    forall k :: k in db.rows ==> (db.rows[k].tenant == tenant <==> mine(k))
  }

  ghost predicate SameData(x: Db, y: Db, tenant: Uuid, mine: Key -> bool) {
    && View(x, tenant) == View(y, tenant)
    && (tenant in x.tenants <==> tenant in y.tenants)
    && (tenant in x.tenants ==> x.tenants[tenant] == y.tenants[tenant])
    && OwnedRows(x, tenant, mine)
    && OwnedRows(y, tenant, mine)
  }

  predicate SameTx(x: Tx, y: Tx) {
    && x.conn == y.conn && x.op == y.op && x.phase == y.phase
    && (x.setting == y.setting || (Blank(x.setting) && Blank(y.setting)))
  }

  predicate SameProgress(s: State, t: State, tx: TxId) {
    && (tx in s.active <==> tx in t.active)
    && (tx in s.active && tx in t.active ==> SameTx(s.active[tx], t.active[tx]))
    && (tx in s.outcomes <==> tx in t.outcomes)
    && (tx in s.outcomes && tx in t.outcomes ==> s.outcomes[tx] == t.outcomes[tx])
  }

  ghost predicate SameTxs(s: State, t: State, tenant: Uuid, cast: Cast) {
    forall tx :: Own(tx, tenant, cast) ==> SameProgress(s, t, tx)
  }

  /** The purged run has only the tenant's transactions open, and at least the same free connections. */
  ghost predicate PoolCovers(s: State, t: State, tenant: Uuid, cast: Cast) {
    && (forall tx :: tx in t.active ==> Own(tx, tenant, cast))
    && (forall c :: c in s.idle ==> c in t.idle)
    && (forall tx :: tx in s.active && !Own(tx, tenant, cast) ==> s.active[tx].conn in t.idle)
  }

  ghost predicate OwnedOps(s: State, tenant: Uuid, mine: Key -> bool, cast: Cast) {
    forall tx :: tx in s.active ==> UsesOwnIds(tx, s.active[tx].op, tenant, mine, cast)
  }

  ghost predicate Alike(s: State, t: State, tenant: Uuid, mine: Key -> bool, cast: Cast) {
    && SameData(s.db, t.db, tenant, mine)
    && SameTxs(s, t, tenant, cast)
    && PoolCovers(s, t, tenant, cast)
    && OwnedOps(s, tenant, mine, cast)
  }

  // ----- statements of the tenant -----

  lemma SameWrite(x: Db, y: Db, text: string, op: Op, tenant: Uuid, mine: Key -> bool, cast: Cast)
    requires SameData(x, y, tenant, mine) && Writes(op) && cast(text) == Some(tenant)
    requires Target(op, cast).Some? ==> mine(Target(op, cast).value)
    ensures WriteStatement(x, Some(text), text, op, cast) == WriteStatement(y, Some(text), text, op, cast)
  {
    if Target(op, cast).Some? {
      var k := Target(op, cast).value;
      assert k in x.rows <==> k in View(x, tenant);
      assert k in y.rows <==> k in View(y, tenant);
    }
  }

  /** A tenant's SELECT looks at the tenant's rows only. */
  lemma SelectReadsView(db: Db, table: Table, tenant: Uuid)
    ensures Select(db, Is(tenant), table, tenant)
            == map k | k in View(db, tenant) && k.table == table :: View(db, tenant)[k]
  {
  }

  lemma SameRead(x: Db, y: Db, text: string, op: Op, pick: Key, tenant: Uuid, mine: Key -> bool, cast: Cast)
    requires SameData(x, y, tenant, mine) && !Writes(op) && cast(text) == Some(tenant)
    ensures ReadStatement(x, Some(text), text, op, pick, cast) == ReadStatement(y, Some(text), text, op, pick, cast)
  {
    assert cast("") == None && TenantOf(Some(text), cast) == Is(tenant);
    SelectReadsView(x, Devices, tenant);
    SelectReadsView(y, Devices, tenant);
    SelectReadsView(x, CloudCredentials, tenant);
    SelectReadsView(y, CloudCredentials, tenant);
    hide Select, View, OwnedRows;
  }

  lemma SameStatement(s: State, t: State, tx: TxId, pick: Key, tenant: Uuid, mine: Key -> bool, cast: Cast)
    requires Inv(s, cast) && Inv(t, cast) && Alike(s, t, tenant, mine, cast)
    requires Own(tx, tenant, cast) && tx in s.active && tx in t.active && s.active[tx].phase.TenantSet?
    ensures t.active[tx].op == s.active[tx].op && t.active[tx].phase.TenantSet?
    ensures Statement(s.db, s.active[tx].setting, tx.tenant, s.active[tx].op, pick, cast)
            == Statement(t.db, t.active[tx].setting, tx.tenant, t.active[tx].op, pick, cast)
  {
    hide IdleBlank, ConnsHeldOnce, KeysHeldOnce, WriteStatement, ReadStatement, SameData, PoolCovers;
    assert TxOk(s, tx, cast) && TxOk(t, tx, cast);
    var op := s.active[tx].op;
    if Writes(op) {
      SameWrite(s.db, t.db, tx.tenant, op, tenant, mine, cast);
    } else {
      SameRead(s.db, t.db, tx.tenant, op, pick, tenant, mine, cast);
    }
  }

  /** If nothing the tenant's upsert waits for is open in the full run, nothing is in the purged one. */
  lemma SameWait(s: State, t: State, tx: TxId, tenant: Uuid, mine: Key -> bool, cast: Cast)
    requires Alike(s, t, tenant, mine, cast) && tx in s.active && tx in t.active && Own(tx, tenant, cast)
    requires !Waits(s, tx, cast)
    ensures !Waits(t, tx, cast)
  {
    hide SameData, OwnedOps;
    assert SameProgress(s, t, tx);
    forall other | other in t.active ensures other in s.active && SameTx(s.active[other], t.active[other]) {
      assert SameProgress(s, t, other);
    }
  }

  lemma SameEnabled(s: State, t: State, a: Action, tenant: Uuid, mine: Key -> bool, cast: Cast)
    requires Inv(s, cast) && Inv(t, cast) && Alike(s, t, tenant, mine, cast)
    requires OwnAction(a, tenant, cast) && Enabled(s, a, cast)
    ensures Enabled(t, a, cast)
  {
    hide Inv, SameData, OwnedOps, Statement, Waits;
    if a.Execute? {
      SameStatement(s, t, a.tx, a.pick, tenant, mine, cast);
      SameWait(s, t, a.tx, tenant, mine, cast);
    }
  }

  // ----- one action of the tenant, in both runs -----

  lemma OwnCommit(x: Db, y: Db, effect: Effect, tenant: Uuid, mine: Key -> bool)
    requires SameData(x, y, tenant, mine)
    requires effect.Staged? ==> effect.row.tenant == tenant && mine(effect.key)
    ensures SameData(Commit(x, effect), Commit(y, effect), tenant, mine)
  {
    if effect.Staged? {
      assert View(Commit(x, effect), tenant) == View(x, tenant)[effect.key := effect.row];
      assert View(Commit(y, effect), tenant) == View(y, tenant)[effect.key := effect.row];
    }
  }

  lemma OwnStaged(s: State, tx: TxId, tenant: Uuid, mine: Key -> bool, cast: Cast)
    requires Inv(s, cast) && OwnedOps(s, tenant, mine, cast)
    requires tx in s.active && s.active[tx].phase.Executed? && s.active[tx].phase.effect.Staged?
    ensures var effect := s.active[tx].phase.effect;
            && (Own(tx, tenant, cast) <==> effect.row.tenant == tenant)
            && (Own(tx, tenant, cast) <==> mine(effect.key))
  {
    hide IdleBlank, ConnsHeldOnce, KeysHeldOnce;
    assert TxOk(s, tx, cast);
    WriteStaysInTenant(s.db, tx.tenant, s.active[tx].op, cast);
  }

  lemma OwnStepData(s: State, t: State, a: Action, tenant: Uuid, mine: Key -> bool, cast: Cast)
    requires Inv(s, cast) && Inv(t, cast) && Alike(s, t, tenant, mine, cast)
    requires OwnAction(a, tenant, cast) && Enabled(s, a, cast) && Enabled(t, a, cast)
    ensures SameData(Step(s, a, cast).db, Step(t, a, cast).db, tenant, mine)
  {
    hide Inv, Statement, Waits, PickFits, PoolCovers;
    if a.CommitTx? || a.CommitReplyLost? {
      hide OwnedRows;
      if s.active[a.tx].phase.effect.Staged? {
        OwnStaged(s, a.tx, tenant, mine, cast);
      }
      OwnCommit(s.db, t.db, s.active[a.tx].phase.effect, tenant, mine);
    } else {
      assert View(Step(s, a, cast).db, tenant) == View(s.db, tenant);
      assert View(Step(t, a, cast).db, tenant) == View(t.db, tenant);
    }
  }

  /** An action of a transaction leaves every other transaction alone. */
  lemma StepTouchesOne(s: State, a: Action, cast: Cast, tx: TxId)
    requires Enabled(s, a, cast) && (a.RegisterTenant? || tx != a.tx)
    ensures var s' := Step(s, a, cast);
            && (tx in s'.active <==> tx in s.active)
            && (tx in s.active ==> s'.active[tx] == s.active[tx])
            && (tx in s'.outcomes <==> tx in s.outcomes)
            && (tx in s.outcomes ==> s'.outcomes[tx] == s.outcomes[tx])
  {
    hide Statement, Waits, PickFits, Commit;
  }

  lemma OwnStepProgress(s: State, t: State, a: Action, tenant: Uuid, mine: Key -> bool, cast: Cast)
    requires Inv(s, cast) && Inv(t, cast) && Alike(s, t, tenant, mine, cast)
    requires OwnAction(a, tenant, cast) && Enabled(s, a, cast) && Enabled(t, a, cast) && !a.RegisterTenant?
    ensures SameProgress(Step(s, a, cast), Step(t, a, cast), a.tx)
  {
    hide SameData, OwnedOps, Statement, Waits, PickFits, Commit, ConnsHeldOnce, KeysHeldOnce, TxOk;
    assert SameProgress(s, t, a.tx);
    if a.Execute? {
      SameStatement(s, t, a.tx, a.pick, tenant, mine, cast);
    }
  }

  lemma OwnStepTxs(s: State, t: State, a: Action, tenant: Uuid, mine: Key -> bool, cast: Cast)
    requires Inv(s, cast) && Inv(t, cast) && Alike(s, t, tenant, mine, cast)
    requires OwnAction(a, tenant, cast) && Enabled(s, a, cast) && Enabled(t, a, cast)
    ensures SameTxs(Step(s, a, cast), Step(t, a, cast), tenant, cast)
  {
    hide Inv, Enabled, Step, SameData, OwnedOps, PoolCovers;
    forall tx | Own(tx, tenant, cast) ensures SameProgress(Step(s, a, cast), Step(t, a, cast), tx) {
      assert SameProgress(s, t, tx);
      if a.RegisterTenant? || tx != a.tx {
        StepTouchesOne(s, a, cast, tx);
        StepTouchesOne(t, a, cast, tx);
      } else {
        OwnStepProgress(s, t, a, tenant, mine, cast);
      }
    }
  }

  lemma OwnStepIdle(s: State, t: State, a: Action, tenant: Uuid, cast: Cast)
    requires PoolCovers(s, t, tenant, cast) && SameTxs(s, t, tenant, cast)
    requires OwnAction(a, tenant, cast) && Enabled(s, a, cast) && Enabled(t, a, cast)
    ensures var s', t' := Step(s, a, cast), Step(t, a, cast);
            && (forall tx :: tx in t'.active ==> Own(tx, tenant, cast))
            && (forall c :: c in s'.idle ==> c in t'.idle)
  {
    hide Statement, Waits, PickFits, Commit;
    if !a.RegisterTenant? {
      assert SameProgress(s, t, a.tx);
    }
  }

  /** The connection of somebody else's open transaction stays free in the purged run. */
  lemma OwnStepOthers(s: State, t: State, a: Action, tenant: Uuid, cast: Cast, tx: TxId)
    requires Inv(s, cast) && PoolCovers(s, t, tenant, cast)
    requires OwnAction(a, tenant, cast) && Enabled(s, a, cast) && Enabled(t, a, cast)
    requires tx in Step(s, a, cast).active && !Own(tx, tenant, cast)
    ensures Step(s, a, cast).active[tx].conn in Step(t, a, cast).idle
  {
    hide Statement, WriteStatement, Waits, PickFits, Commit, KeysHeldOnce, IdleBlank, ConnsHeldOnce;
    StepTouchesOne(s, a, cast, tx);
    assert TxOk(s, tx, cast);
  }

  lemma OwnStepPool(s: State, t: State, a: Action, tenant: Uuid, cast: Cast)
    requires Inv(s, cast) && PoolCovers(s, t, tenant, cast) && SameTxs(s, t, tenant, cast)
    requires OwnAction(a, tenant, cast) && Enabled(s, a, cast) && Enabled(t, a, cast)
    ensures PoolCovers(Step(s, a, cast), Step(t, a, cast), tenant, cast)
  {
    hide Inv, Enabled, Step, SameTxs;
    OwnStepIdle(s, t, a, tenant, cast);
    forall tx | tx in Step(s, a, cast).active && !Own(tx, tenant, cast)
      ensures Step(s, a, cast).active[tx].conn in Step(t, a, cast).idle
    {
      OwnStepOthers(s, t, a, tenant, cast, tx);
    }
  }

  lemma StepKeepsOwnedOps(s: State, a: Action, tenant: Uuid, mine: Key -> bool, cast: Cast)
    requires OwnedOps(s, tenant, mine, cast) && UsesOwnIdsIfBegin(a, tenant, mine, cast) && Enabled(s, a, cast)
    ensures OwnedOps(Step(s, a, cast), tenant, mine, cast)
  {
    hide Statement, Waits, PickFits, Commit;
  }

  predicate UsesOwnIdsIfBegin(a: Action, tenant: Uuid, mine: Key -> bool, cast: Cast) {
    a.Begin? ==> UsesOwnIds(a.tx, a.op, tenant, mine, cast)
  }

  // ----- one action of somebody else, in the full run only -----

  lemma OtherStepPool(s: State, t: State, a: Action, tenant: Uuid, mine: Key -> bool, cast: Cast)
    requires PoolCovers(s, t, tenant, cast) && OwnedOps(s, tenant, mine, cast)
    requires UsesOwnIdsIfBegin(a, tenant, mine, cast)
    requires !OwnAction(a, tenant, cast) && Enabled(s, a, cast)
    ensures PoolCovers(Step(s, a, cast), t, tenant, cast)
    ensures OwnedOps(Step(s, a, cast), tenant, mine, cast)
  {
    hide Statement, Waits, PickFits, Commit;
  }

  lemma OtherStep(s: State, t: State, a: Action, tenant: Uuid, mine: Key -> bool, cast: Cast)
    requires Inv(s, cast) && Alike(s, t, tenant, mine, cast) && UsesOwnIdsIfBegin(a, tenant, mine, cast)
    requires !OwnAction(a, tenant, cast) && Enabled(s, a, cast)
    ensures Alike(Step(s, a, cast), t, tenant, mine, cast)
  {
    hide Inv, Enabled, Step, SameData, OwnedOps, PoolCovers;
    OtherStepData(s, t, a, tenant, mine, cast);
    OtherStepPool(s, t, a, tenant, mine, cast);
    forall tx | Own(tx, tenant, cast) ensures SameProgress(Step(s, a, cast), t, tx) {
      assert SameProgress(s, t, tx);
      StepTouchesOne(s, a, cast, tx);
    }
  }

  lemma OtherStepData(s: State, t: State, a: Action, tenant: Uuid, mine: Key -> bool, cast: Cast)
    requires Inv(s, cast) && Alike(s, t, tenant, mine, cast)
    requires !OwnAction(a, tenant, cast) && Enabled(s, a, cast)
    ensures SameData(Step(s, a, cast).db, t.db, tenant, mine)
  {
    hide Inv, Statement, Waits, PickFits, PoolCovers, SameTxs;
    StepRespectsRows(s, a, cast, tenant);
    if a.CommitTx? || a.CommitReplyLost? {
      if s.active[a.tx].phase.effect.Staged? {
        OwnStaged(s, a.tx, tenant, mine, cast);
      }
    }
  }

  // ----- whole runs -----

  lemma {:induction false} RunsStayAlike(s: State, t: State, actions: seq<Action>, tenant: Uuid,
      mine: Key -> bool, cast: Cast)
    requires Inv(s, cast) && Inv(t, cast) && Alike(s, t, tenant, mine, cast)
    requires Legal(s, actions, cast) && DisjointIds(actions, tenant, mine, cast)
    ensures Legal(t, Purge(actions, tenant, cast), cast)
    ensures Alike(Run(s, actions, cast), Run(t, Purge(actions, tenant, cast), cast), tenant, mine, cast)
    decreases |actions|
  {
    hide Inv, Enabled, SameData, SameTxs, PoolCovers, OwnedOps;
    if actions != [] {
      var a, rest := actions[0], actions[1..];
      var s1 := Step(s, a, cast);
      StepKeepsInv(s, a, cast);
      assert UsesOwnIdsIfBegin(a, tenant, mine, cast);
      assert DisjointIds(rest, tenant, mine, cast);
      if OwnAction(a, tenant, cast) {
        SameEnabled(s, t, a, tenant, mine, cast);
        OwnStepData(s, t, a, tenant, mine, cast);
        OwnStepTxs(s, t, a, tenant, mine, cast);
        OwnStepPool(s, t, a, tenant, cast);
        StepKeepsOwnedOps(s, a, tenant, mine, cast);
        StepKeepsInv(t, a, cast);
        RunsStayAlike(s1, Step(t, a, cast), rest, tenant, mine, cast);
        assert Purge(actions, tenant, cast)[0] == a;
        assert Purge(actions, tenant, cast)[1..] == Purge(rest, tenant, cast);
      } else {
        OtherStep(s, t, a, tenant, mine, cast);
        RunsStayAlike(s1, t, rest, tenant, mine, cast);
        assert Purge(actions, tenant, cast) == Purge(rest, tenant, cast);
      }
    }
  }

  /**
    Noninterference. The tenant's rows and the outcome of each of its transactions do not depend
    on the other tenants' actions: they are the same when those actions never happen.
   */
  lemma TenantsDoNotInterfere(connections: set<nat>, actions: seq<Action>, tenant: Uuid, mine: Key -> bool, cast: Cast)
    requires Legal(Initial(connections), actions, cast) && DisjointIds(actions, tenant, mine, cast)
    ensures Legal(Initial(connections), Purge(actions, tenant, cast), cast)
    ensures var full := Run(Initial(connections), actions, cast);
            var alone := Run(Initial(connections), Purge(actions, tenant, cast), cast);
            && View(full.db, tenant) == View(alone.db, tenant)
            && forall tx :: Own(tx, tenant, cast) ==>
                 && (tx in full.outcomes <==> tx in alone.outcomes)
                 && (tx in full.outcomes ==> full.outcomes[tx] == alone.outcomes[tx])
  {
    hide Enabled, Step;
    var start := Initial(connections);
    RunsStayAlike(start, start, actions, tenant, mine, cast);
    forall tx | Own(tx, tenant, cast)
      ensures SameProgress(Run(start, actions, cast), Run(start, Purge(actions, tenant, cast), cast), tx)
    {
    }
  }

  /** For one save, rows of other tenants make a difference exactly when one of them has its id. */
  lemma ForeignRowsMatterExactlyOnConflict(db: Db, text: string, op: Op, tenant: Uuid, cast: Cast)
    requires Writes(op) && cast(text) == Some(tenant)
    ensures var alone := db.(rows := View(db, tenant));
            WriteStatement(db, Some(text), text, op, cast) == WriteStatement(alone, Some(text), text, op, cast)
            <==> !(Target(op, cast).Some? && Target(op, cast).value in db.rows
                   && db.rows[Target(op, cast).value].tenant != tenant)
  {
    var alone := db.(rows := View(db, tenant));
    if Target(op, cast).Some? {
      assert Target(op, cast).value in alone.rows <==>
             Target(op, cast).value in db.rows && db.rows[Target(op, cast).value].tenant == tenant;
    }
  }
}
