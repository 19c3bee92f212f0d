/** Where the contents of every row, and of every answer, come from. */
module TenantRecords {
  import opened Wrappers
  import opened TenantDb
  import opened TenantTheorems

  /** The columns that one save writes together. A token's provider is not among them: it stays
      what the first save of the token made it. */
  predicate WrittenTogether(op: Op, columns: Columns)
    requires Writes(op)
  {
    match columns
    case TokenColumns(_, dek, ciphertext) =>
      op.SaveOAuthToken? && dek == op.encryptedDek && ciphertext == op.tokenCiphertext
    case DeviceColumns(hostname, specs, lastSync) =>
      op.SaveDevice? && hostname == op.hostname && specs == op.hardwareSpecs && lastSync == op.now
    case CredentialColumns(roleArn, externalId) =>
      op.SaveCloudCredential? && roleArn == op.roleArn && externalId == op.externalId
  }

  /** Entry i of the commit log saved this row, for the tenant that owns it. */
  predicate SavedBy(log: seq<LogEntry>, i: int, k: Key, row: Row, cast: Cast) {
    && 0 <= i < |log| && log[i].Saved? && Writes(log[i].op)
    && cast(log[i].tx.tenant) == Some(row.tenant)
    && Target(log[i].op, cast) == Some(k)
    && WrittenTogether(log[i].op, row.columns)
  }

  lemma SaveWritesTogether(db: Db, tx: TxId, op: Op, cast: Cast, k: Key)
    requires Writes(op) && k in Save(db, tx.tenant, op, cast).rows && Typed(db)
    ensures var row := Save(db, tx.tenant, op, cast).rows[k];
            || (k in db.rows && row == db.rows[k])
            || (cast(tx.tenant) == Some(row.tenant) && Target(op, cast) == Some(k) && WrittenTogether(op, row.columns))
  {
  }

  /** Tables keep to their own columns. */
  lemma {:induction false} ReplayIsTyped(log: seq<LogEntry>, cast: Cast)
    ensures Typed(Replay(log, cast))
  {
    hide Statement, Typed;
    if log != [] {
      var before, entry := log[..|log| - 1], log[|log| - 1];
      ReplayIsTyped(before, cast);
      EntryKeepsTyped(Replay(before, cast), entry, cast);
    } else {
      assert Typed(Db(map[], map[])) by { EmptyIsTyped(); }
    }
  }

  lemma EmptyIsTyped()
    ensures Typed(Db(map[], map[]))
  {
  }

  lemma EntryKeepsTyped(db: Db, entry: LogEntry, cast: Cast)
    requires Typed(db)
    ensures Typed(Apply(db, entry, cast))
  {
    if entry.Saved? && Writes(entry.op) {
      var tenant := entry.tx.tenant;
      StatementKeepsTyped(db, Some(tenant), tenant, entry.op, Key(Devices, Uuid(0)), cast);
    }
  }

  lemma {:induction false} ReplayedRowHasOneSource(log: seq<LogEntry>, cast: Cast, k: Key) returns (i: nat)
    requires k in Replay(log, cast).rows
    ensures SavedBy(log, i, k, Replay(log, cast).rows[k], cast)
  {
    hide WriteStatement, WrittenTogether;
    var before, entry := log[..|log| - 1], log[|log| - 1];
    var db, row := Replay(before, cast), Replay(log, cast).rows[k];
    ReplayIsTyped(before, cast);
    if entry.Saved? && Writes(entry.op) {
      SaveWritesTogether(db, entry.tx, entry.op, cast, k);
    }
    if k in db.rows && row == db.rows[k] {
      i := ReplayedRowHasOneSource(before, cast, k);
      assert log[i] == before[i];
    } else {
      i := |log| - 1;
    }
  }

  /**
    In every run, the columns of a row that belong together (a token's wrapped key and ciphertext,
    a credential's role and external id, a device's three) come from one committed save of that
    record for the tenant that owns it: two saves never mix.
   */
  lemma EveryRowHasOneSource(connections: set<nat>, actions: seq<Action>, cast: Cast, k: Key) returns (i: nat)
    requires k in Run(Initial(connections), actions, cast).db.rows
    ensures var s := Run(Initial(connections), actions, cast);
            SavedBy(s.log, i, k, s.db.rows[k], cast)
  {
    EveryRunIsSerializable(connections, actions, cast);
    i := ReplayedRowHasOneSource(Run(Initial(connections), actions, cast).log, cast, k);
  }

  lemma StepKeepsProvider(s: State, a: Action, cast: Cast, k: Key)
    requires Inv(s, cast) && k in s.db.rows && k.table.OAuthTokens? && s.db.rows[k].columns.TokenColumns?
    ensures var s' := Step(s, a, cast);
            && k in s'.db.rows && s'.db.rows[k].columns.TokenColumns?
            && s'.db.rows[k].columns.provider == s.db.rows[k].columns.provider
  {
    hide IdleBlank, ConnsHeldOnce, KeysHeldOnce, ReadStatement, Waits, PickFits;
    if Enabled(s, a, cast) && (a.CommitTx? || a.CommitReplyLost?) {
      assert TxOk(s, a.tx, cast);
    }
  }

  /** A token's provider is fixed by its first save. */
  lemma {:induction false} ProviderNeverChanges(s: State, actions: seq<Action>, cast: Cast, k: Key)
    requires Inv(s, cast) && k in s.db.rows && k.table.OAuthTokens? && s.db.rows[k].columns.TokenColumns?
    ensures var s' := Run(s, actions, cast);
            && k in s'.db.rows && s'.db.rows[k].columns.TokenColumns?
            && s'.db.rows[k].columns.provider == s.db.rows[k].columns.provider
    decreases |actions|
  {
    hide Inv, Step;
    if actions != [] {
      StepKeepsProvider(s, actions[0], cast, k);
      StepKeepsInv(s, actions[0], cast);
      ProviderNeverChanges(Step(s, actions[0], cast), actions[1..], cast, k);
    }
  }

  // ----- answers -----

  ghost predicate OwnAnswer(tx: TxId, effect: Effect, cast: Cast) {
    effect.Answer? ==> cast(tx.tenant).Some? && forall k :: k in effect.found ==>
        effect.found[k].tenant == cast(tx.tenant).value
  }

  ghost predicate AnswersInv(s: State, cast: Cast) {
    && (forall tx :: tx in s.active && s.active[tx].phase.Executed? ==> OwnAnswer(tx, s.active[tx].phase.effect, cast))
    && (forall tx :: tx in s.outcomes && s.outcomes[tx].Done? ==> OwnAnswer(tx, s.outcomes[tx].effect, cast))
  }

  lemma StatementAnswersOwn(db: Db, setting: Option<string>, tx: TxId, op: Op, pick: Key, cast: Cast)
    ensures OwnAnswer(tx, Statement(db, setting, tx.tenant, op, pick, cast), cast)
  {
  }

  lemma StepKeepsAnswers(s: State, a: Action, cast: Cast)
    requires AnswersInv(s, cast)
    ensures AnswersInv(Step(s, a, cast), cast)
  {
    hide Statement, Waits, PickFits, OwnAnswer, Commit;
    if Enabled(s, a, cast) && a.Execute? {
      StatementAnswersOwn(s.db, s.active[a.tx].setting, a.tx, s.active[a.tx].op, a.pick, cast);
    }
  }

  lemma {:induction false} RunKeepsAnswers(s: State, actions: seq<Action>, cast: Cast)
    requires AnswersInv(s, cast)
    ensures AnswersInv(Run(s, actions, cast), cast)
    decreases |actions|
  {
    hide AnswersInv, Step;
    if actions != [] {
      StepKeepsAnswers(s, actions[0], cast);
      RunKeepsAnswers(Step(s, actions[0], cast), actions[1..], cast);
    }
  }

  /** In every run, no answer given to a tenant contains another tenant's row. */
  lemma NoTenantReadsAnother(connections: set<nat>, actions: seq<Action>, cast: Cast, tx: TxId, k: Key)
    requires var s := Run(Initial(connections), actions, cast);
             && tx in s.outcomes && s.outcomes[tx].Done? && s.outcomes[tx].effect.Answer?
             && k in s.outcomes[tx].effect.found
    ensures cast(tx.tenant) == Some(Run(Initial(connections), actions, cast).outcomes[tx].effect.found[k].tenant)
  {
    RunKeepsAnswers(Initial(connections), actions, cast);
    assert OwnAnswer(tx, Run(Initial(connections), actions, cast).outcomes[tx].effect, cast);
  }
}
