/**
  The multi-tenant PostgreSQL layer. The first part is what one statement does under row-level
  security; the second is the system of pooled connections on which transactions of all tenants
  interleave statement by statement, each seeing what is committed when its statement runs.
  The role is subject to the policies. A policy without WITH CHECK reuses USING, and an upsert
  that conflicts with a row its session cannot see raises an error.
 */
module TenantDb {
  import opened Wrappers

  datatype Uuid = Uuid(bits: nat)

  /** The cast of a text to a UUID; it fails on a text that is not one, such as the empty text. */
  type Cast = c: string -> Option<Uuid> | c("") == None witness (text: string) => None

  datatype Table = Devices | OAuthTokens | CloudCredentials

  /** Every table has one globally unique primary key. */
  datatype Key = Key(table: Table, id: Uuid)

  datatype Columns =
    | DeviceColumns(hostname: string, hardwareSpecs: string, lastSync: int)
    | TokenColumns(provider: string, encryptedDek: string, tokenCiphertext: string)
    | CredentialColumns(roleArn: string, externalId: string)

  datatype Row = Row(tenant: Uuid, columns: Columns)

  datatype Db = Db(tenants: map<Uuid, string>, rows: map<Key, Row>)

  datatype Op =
    | SaveDevice(deviceId: string, hostname: string, hardwareSpecs: string, now: int)
    | SaveOAuthToken(tokenId: string, provider: string, encryptedDek: string, tokenCiphertext: string)
    | SaveCloudCredential(credentialId: string, roleArn: string, externalId: string)
    | GetDevices
    | GetCloudCredential

  predicate Writes(op: Op) {
    !op.GetDevices? && !op.GetCloudCredential?
  }

  function Target(op: Op, cast: Cast): Option<Key>
    requires Writes(op)
  {
    var (table, id) := match op
      case SaveDevice(deviceId, _, _, _) => (Devices, deviceId)
      case SaveOAuthToken(tokenId, _, _, _) => (OAuthTokens, tokenId)
      case SaveCloudCredential(credentialId, _, _) => (CloudCredentials, credentialId);
    match cast(id)
    case None => None
    case Some(uuid) => Some(Key(table, uuid))
  }

  function NewColumns(op: Op): Columns
    requires Writes(op)
  {
    match op
    case SaveDevice(_, hostname, specs, now) => DeviceColumns(hostname, specs, now)
    case SaveOAuthToken(_, provider, dek, ciphertext) => TokenColumns(provider, dek, ciphertext)
    case SaveCloudCredential(_, arn, externalId) => CredentialColumns(arn, externalId)
  }

  /** ON CONFLICT DO UPDATE: everything is replaced, but a token keeps its provider. */
  function Overwrite(stored: Columns, proposed: Columns): Columns {
    if stored.TokenColumns? && proposed.TokenColumns? then proposed.(provider := stored.provider) else proposed
  }

  // ----- row-level security -----

  /** The value of NULLIF(current_setting('app.current_tenant_id', true), '')::UUID. */
  datatype SessionTenant = NoTenant | Is(tenant: Uuid) | CastFails

  function TenantOf(setting: Option<string>, cast: Cast): SessionTenant {
    match setting
    case None => NoTenant
    case Some(text) =>
      if text == "" then NoTenant
      else match cast(text) case None => CastFails case Some(uuid) => Is(uuid)
  }

  /** Comparing with NULL is never true. */
  predicate Visible(row: Row, session: SessionTenant) {
    session.Is? && row.tenant == session.tenant
  }

  datatype SqlError = BadUuid | PolicyViolation | UnknownTenant | NoRows

  datatype Effect = Staged(key: Key, row: Row) | Answer(found: map<Key, Row>) | Error(error: SqlError)

  function Upsert(db: Db, session: SessionTenant, key: Key, proposed: Row): Effect {
    if !Visible(proposed, session) then Error(PolicyViolation)
    else if key in db.rows then
      if !Visible(db.rows[key], session) then Error(PolicyViolation)
      else Staged(key, Row(db.rows[key].tenant, Overwrite(db.rows[key].columns, proposed.columns)))
    else if proposed.tenant !in db.tenants then Error(UnknownTenant)
    else Staged(key, proposed)
  }

  /** The INSERT ... ON CONFLICT statement of a save. */
  function WriteStatement(db: Db, setting: Option<string>, tenant: string, op: Op, cast: Cast): Effect
    requires Writes(op)
  {
    match (cast(tenant), Target(op, cast))
    case (Some(uuid), Some(key)) =>
      if TenantOf(setting, cast).CastFails? then Error(BadUuid)
      else Upsert(db, TenantOf(setting, cast), key, Row(uuid, NewColumns(op)))
    case _ => Error(BadUuid)
  }

  /** A SELECT ... WHERE tenant_id = $1: the rows that satisfy both the policy and the WHERE clause. */
  function Select(db: Db, session: SessionTenant, table: Table, tenant: Uuid): map<Key, Row> {
    map k | k in db.rows && k.table == table && Visible(db.rows[k], session) &&
        db.rows[k].tenant == tenant :: db.rows[k]
  }

  /** The SELECT of a get. LIMIT 1 may return any row that qualifies: `pick` says which. */
  function ReadStatement(db: Db, setting: Option<string>, tenant: string, op: Op, pick: Key, cast: Cast): Effect
    requires !Writes(op)
  {
    match cast(tenant)
    case None => Error(BadUuid)
    case Some(uuid) =>
      var session := TenantOf(setting, cast);
      if session.CastFails? then Error(BadUuid)
      else if op.GetDevices? then Answer(Select(db, session, Devices, uuid))
      else
        var found := Select(db, session, CloudCredentials, uuid);
        if found == map[] then Error(NoRows)
        else Answer(map k | k in found && k == pick :: found[k])
  }

  function Statement(db: Db, setting: Option<string>, tenant: string, op: Op, pick: Key, cast: Cast): Effect {
    if Writes(op) then WriteStatement(db, setting, tenant, op, cast)
    else ReadStatement(db, setting, tenant, op, pick, cast)
  }

  function Commit(db: Db, effect: Effect): Db {
    if effect.Staged? then db.(rows := db.rows[effect.key := effect.row]) else db
  }

  /** Each table has its own columns. */
  predicate ColumnsFit(table: Table, columns: Columns) {
    match table
    case Devices => columns.DeviceColumns?
    case OAuthTokens => columns.TokenColumns?
    case CloudCredentials => columns.CredentialColumns?
  }

  ghost predicate Typed(db: Db) {
    forall k :: k in db.rows ==> ColumnsFit(k.table, db.rows[k].columns)
  }

  lemma StatementKeepsTyped(db: Db, setting: Option<string>, tenant: string, op: Op, pick: Key, cast: Cast)
    requires Typed(db)
    ensures Typed(Commit(db, Statement(db, setting, tenant, op, pick, cast)))
  {
  }

  /** A whole save transaction on its own. */
  function Save(db: Db, tenant: string, op: Op, cast: Cast): Db
    requires Writes(op)
  {
    Commit(db, WriteStatement(db, Some(tenant), tenant, op, cast))
  }

  /** The effect of SET LOCAL ends with the transaction; the setting is then the empty string. */
  function AfterTransaction(setting: Option<string>): Option<string> {
    if setting.None? then None else Some("")
  }

  predicate Blank(setting: Option<string>) {
    setting == None || setting == Some("")
  }

  // ----- interleaved transactions on pooled connections -----

  datatype TxId = TxId(tenant: string, number: nat)

  datatype Phase = Begun | TenantSet | Executed(effect: Effect) | Aborted

  datatype Tx = Tx(conn: nat, op: Op, setting: Option<string>, phase: Phase)

  datatype Outcome = Done(effect: Effect) | Failed

  datatype LogEntry = Registered(id: Uuid, name: string) | Saved(tx: TxId, op: Op)

  /** `idle` maps each free connection to the setting left on it; `log` is the order of commits. */
  datatype State = State(
    db: Db,
    idle: map<nat, Option<string>>,
    active: map<TxId, Tx>,
    outcomes: map<TxId, Outcome>,
    log: seq<LogEntry>)

  datatype Action =
    | RegisterTenant(id: Uuid, name: string)
    | Begin(tx: TxId, conn: nat, op: Op)
    | SetLocal(tx: TxId)
    | Execute(tx: TxId, pick: Key)
    | Interrupt(tx: TxId)
    | CommitTx(tx: TxId)
    | CommitReplyLost(tx: TxId)
    | Rollback(tx: TxId)

  /** Another transaction has written this key and not ended: an upsert of the key waits for it. */
  predicate Locked(s: State, tx: TxId, key: Key) {
    exists other :: other in s.active && other != tx && s.active[other].phase.Executed?
                    && s.active[other].phase.effect.Staged? && s.active[other].phase.effect.key == key
  }

  predicate Waits(s: State, tx: TxId, cast: Cast)
    requires tx in s.active
  {
    var op := s.active[tx].op;
    Writes(op) && Target(op, cast).Some? && Locked(s, tx, Target(op, cast).value)
  }

  predicate PickFits(s: State, tx: TxId, pick: Key, cast: Cast)
    requires tx in s.active
  {
    var t := s.active[tx];
    t.op.GetCloudCredential? ==> Statement(s.db, t.setting, tx.tenant, t.op, pick, cast) != Answer(map[])
  }

  predicate Enabled(s: State, a: Action, cast: Cast) {
    match a
    case RegisterTenant(_, _) => true
    case Begin(tx, conn, _) => tx !in s.active && tx !in s.outcomes && conn in s.idle
    case SetLocal(tx) => tx in s.active && s.active[tx].phase.Begun?
    case Execute(tx, pick) => tx in s.active && s.active[tx].phase.TenantSet? && !Waits(s, tx, cast) &&
        PickFits(s, tx, pick, cast)
    case Interrupt(tx) => tx in s.active && !s.active[tx].phase.Aborted?
    case CommitTx(tx) => tx in s.active && s.active[tx].phase.Executed?
    case CommitReplyLost(tx) => tx in s.active && s.active[tx].phase.Executed?
    case Rollback(tx) => tx in s.active && s.active[tx].phase.Aborted?
  }

  function WithPhase(s: State, tx: TxId, phase: Phase): State
    requires tx in s.active
  {
    s.(active := s.active[tx := s.active[tx].(phase := phase)])
  }

  function End(s: State, tx: TxId, outcome: Outcome): State
    requires tx in s.active
  {
    var t := s.active[tx];
    s.(active := s.active - {tx},
       idle := s.idle[t.conn := AfterTransaction(t.setting)],
       outcomes := s.outcomes[tx := outcome])
  }

  function CommitStep(s: State, tx: TxId, outcome: Outcome): State
    requires tx in s.active && s.active[tx].phase.Executed?
  {
    var t := s.active[tx];
    End(s.(db := Commit(s.db, t.phase.effect),
           log := if Writes(t.op) then s.log + [Saved(tx, t.op)] else s.log),
        tx, outcome)
  }

  /** An action that is not enabled changes nothing. */
  function Step(s: State, a: Action, cast: Cast): State {
    if !Enabled(s, a, cast) then s else
    match a
    case RegisterTenant(id, name) =>
      s.(db := s.db.(tenants := s.db.tenants[id := name]), log := s.log + [Registered(id, name)])
    case Begin(tx, conn, op) =>
      s.(idle := s.idle - {conn}, active := s.active[tx := Tx(conn, op, s.idle[conn], Begun)])
    case SetLocal(tx) =>
      s.(active := s.active[tx := s.active[tx].(setting := Some(tx.tenant), phase := TenantSet)])
    case Execute(tx, pick) =>
      var t := s.active[tx];
      var effect := Statement(s.db, t.setting, tx.tenant, t.op, pick, cast);
      WithPhase(s, tx, if effect.Error? then Aborted else Executed(effect))
    case Interrupt(tx) => WithPhase(s, tx, Aborted)
    case CommitTx(tx) => CommitStep(s, tx, Done(s.active[tx].phase.effect))
    case CommitReplyLost(tx) => CommitStep(s, tx, Failed)
    case Rollback(tx) => End(s, tx, Failed)
  }

  function Run(s: State, actions: seq<Action>, cast: Cast): State
    decreases |actions|
  {
    if actions == [] then s else Run(Step(s, actions[0], cast), actions[1..], cast)
  }

  // ----- the invariant of the pool and of open transactions -----

  /** An open transaction that has written holds what its statement would still write now. */
  ghost predicate TxOk(s: State, tx: TxId, cast: Cast)
    requires tx in s.active
  {
    var t := s.active[tx];
    && t.conn !in s.idle
    && (t.phase.Begun? ==> Blank(t.setting))
    && (t.phase.TenantSet? || t.phase.Executed? ==> t.setting == Some(tx.tenant))
    && (t.phase.Executed? ==>
          && !t.phase.effect.Error?
          && (t.phase.effect.Staged? <==> Writes(t.op))
          && (Writes(t.op) ==> WriteStatement(s.db, Some(tx.tenant), tx.tenant, t.op, cast) == t.phase.effect))
  }

  ghost predicate KeysHeldOnce(s: State) {
    forall x, y :: x in s.active && y in s.active && x != y
                   && s.active[x].phase.Executed? && s.active[y].phase.Executed?
                   && s.active[x].phase.effect.Staged? && s.active[y].phase.effect.Staged?
                   ==> s.active[x].phase.effect.key != s.active[y].phase.effect.key
  }

  ghost predicate ConnsHeldOnce(s: State) {
    forall x, y :: x in s.active && y in s.active && x != y ==> s.active[x].conn != s.active[y].conn
  }

  ghost predicate IdleBlank(s: State) {
    forall c :: c in s.idle ==> Blank(s.idle[c])
  }

  ghost predicate Inv(s: State, cast: Cast) {
    && IdleBlank(s)
    && ConnsHeldOnce(s)
    && KeysHeldOnce(s)
    && forall tx :: tx in s.active ==> TxOk(s, tx, cast)
  }

  /** A write looks only at its own key and at whether its tenant exists. */
  lemma WriteIsLocal(db: Db, db': Db, tenant: string, op: Op, cast: Cast, effect: Effect)
    requires Writes(op) && WriteStatement(db, Some(tenant), tenant, op, cast) == effect && effect.Staged?
    requires db.tenants.Keys <= db'.tenants.Keys
    requires effect.key in db.rows <==> effect.key in db'.rows
    requires effect.key in db.rows ==> db.rows[effect.key] == db'.rows[effect.key]
    ensures WriteStatement(db', Some(tenant), tenant, op, cast) == effect
  {
  }

  lemma StatementShape(db: Db, setting: Option<string>, tenant: string, op: Op, pick: Key, cast: Cast)
    ensures var effect := Statement(db, setting, tenant, op, pick, cast);
            && (effect.Error? || (effect.Staged? <==> Writes(op)))
            && (effect.Staged? ==> Target(op, cast).Some? && effect.key == Target(op, cast).value)
  {
  }

  lemma ExecuteKeepsInv(s: State, a: Action, cast: Cast)
    requires Inv(s, cast) && a.Execute? && Enabled(s, a, cast)
    ensures Inv(Step(s, a, cast), cast)
  {
    hide WriteStatement, ReadStatement;
    var s' := Step(s, a, cast);
    assert TxOk(s, a.tx, cast);
    StatementShape(s.db, s.active[a.tx].setting, a.tx.tenant, s.active[a.tx].op, a.pick, cast);
    forall tx | tx in s'.active ensures TxOk(s', tx, cast) {
      assert TxOk(s, tx, cast);
    }
  }

  lemma CommitKeepsInv(s: State, tx: TxId, outcome: Outcome, cast: Cast)
    requires Inv(s, cast) && tx in s.active && s.active[tx].phase.Executed?
    ensures Inv(CommitStep(s, tx, outcome), cast)
  {
    var s' := CommitStep(s, tx, outcome);
    assert TxOk(s, tx, cast);
    forall other | other in s'.active ensures TxOk(s', other, cast) {
      assert TxOk(s, other, cast);
      var t := s.active[other];
      if t.phase.Executed? && t.phase.effect.Staged? {
        WriteIsLocal(s.db, s'.db, other.tenant, t.op, cast, t.phase.effect);
      }
    }
  }

  lemma RegisterKeepsInv(s: State, a: Action, cast: Cast)
    requires Inv(s, cast) && a.RegisterTenant?
    ensures Inv(Step(s, a, cast), cast)
  {
    var s' := Step(s, a, cast);
    forall other | other in s'.active ensures TxOk(s', other, cast) {
      assert TxOk(s, other, cast);
      var t := s.active[other];
      if t.phase.Executed? && t.phase.effect.Staged? {
        WriteIsLocal(s.db, s'.db, other.tenant, t.op, cast, t.phase.effect);
      }
    }
  }

  lemma OtherStepsKeepInv(s: State, a: Action, cast: Cast)
    requires Inv(s, cast) && Enabled(s, a, cast)
    requires a.Begin? || a.SetLocal? || a.Interrupt? || a.Rollback?
    ensures Inv(Step(s, a, cast), cast)
  {
    hide WriteStatement, ReadStatement, Statement, Commit, Waits, PickFits, Target;
    var s' := Step(s, a, cast);
    forall other | other in s'.active ensures TxOk(s', other, cast) {
      assert other in s.active ==> TxOk(s, other, cast);
    }
  }

  lemma StepKeepsInv(s: State, a: Action, cast: Cast)
    requires Inv(s, cast)
    ensures Inv(Step(s, a, cast), cast)
  {
    hide Inv;
    if Enabled(s, a, cast) {
      match a {
        case RegisterTenant(_, _) => RegisterKeepsInv(s, a, cast);
        case Execute(_, _) => ExecuteKeepsInv(s, a, cast);
        case CommitTx(tx) => CommitKeepsInv(s, tx, Done(s.active[tx].phase.effect), cast);
        case CommitReplyLost(tx) => CommitKeepsInv(s, tx, Failed, cast);
        case _ => OtherStepsKeepInv(s, a, cast);
      }
    }
  }

  lemma {:induction false} RunKeepsInv(s: State, actions: seq<Action>, cast: Cast)
    requires Inv(s, cast)
    ensures Inv(Run(s, actions, cast), cast)
    decreases |actions|
  {
    hide Inv;
    if actions != [] {
      StepKeepsInv(s, actions[0], cast);
      RunKeepsInv(Step(s, actions[0], cast), actions[1..], cast);
    }
  }
}
