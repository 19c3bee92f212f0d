/** When transactions wait for one another, and that they never all do. */
module TenantProgress {
  import opened Wrappers
  import opened TenantDb
  import Repository

  /** A save waits exactly for an open save of the same record whose statement has run. */
  lemma SaveWaitsExactlyForSameRecord(s: State, tx: TxId, pick: Key, cast: Cast)
    requires Inv(s, cast) && tx in s.active && s.active[tx].phase.TenantSet? && Writes(s.active[tx].op)
    ensures Enabled(s, Execute(tx, pick), cast) <==>
            forall other :: other in s.active && other != tx && s.active[other].phase.Executed?
                            && Writes(s.active[other].op)
                            ==> Target(s.active[other].op, cast) != Target(s.active[tx].op, cast)
  {
    hide IdleBlank, ConnsHeldOnce, KeysHeldOnce, WriteStatement;
    forall other | other in s.active && s.active[other].phase.Executed? && Writes(s.active[other].op)
      ensures s.active[other].phase.effect.Staged?
      ensures Target(s.active[other].op, cast) == Some(s.active[other].phase.effect.key)
    {
      assert TxOk(s, other, cast);
      StatementShape(s.db, Some(other.tenant), other.tenant, s.active[other].op, pick, cast);
    }
    assert forall other :: other in s.active && s.active[other].phase.Executed? ==> TxOk(s, other, cast);
  }

  /** The next step of a transaction, be it done, failed or under way. */
  predicate Proceeds(a: Action) {
    a.SetLocal? || a.Execute? || a.CommitTx? || a.Rollback?
  }

  lemma ReadCanRun(s: State, tx: TxId, cast: Cast) returns (pick: Key)
    requires tx in s.active && s.active[tx].phase.TenantSet? && !Writes(s.active[tx].op)
    ensures Enabled(s, Execute(tx, pick), cast)
  {
    var t := s.active[tx];
    pick := Key(Devices, Uuid(0));
    if t.op.GetCloudCredential? && cast(tx.tenant).Some? {
      var found := Select(s.db, TenantOf(t.setting, cast), CloudCredentials, cast(tx.tenant).value);
      if found != map[] {
        pick :| pick in found;
        assert pick in map k | k in found && k == pick :: found[k];
      }
    }
  }

  /** No deadlock: as long as transactions are open, one of them can proceed. */
  lemma SomeTransactionCanProceed(s: State, cast: Cast)
    requires Inv(s, cast)
    ensures (exists a :: Proceeds(a) && Enabled(s, a, cast)) <==> s.active != map[]
  {
    hide Inv, PickFits, Statement;
    if s.active != map[] {
      var tx :| tx in s.active;
      match s.active[tx].phase {
        case Begun => assert Enabled(s, SetLocal(tx), cast);
        case Executed(_) => assert Enabled(s, CommitTx(tx), cast);
        case Aborted => assert Enabled(s, Rollback(tx), cast);
        case TenantSet =>
          if !Writes(s.active[tx].op) {
            var pick := ReadCanRun(s, tx, cast);
            assert Enabled(s, Execute(tx, pick), cast);
          } else if Waits(s, tx, cast) {
            var other :| other in s.active && other != tx && s.active[other].phase.Executed?;
            assert Enabled(s, CommitTx(other), cast);
          } else {
            WriteCanRun(s, tx, cast);
            assert Enabled(s, Execute(tx, Key(Devices, Uuid(0))), cast);
          }
      }
    }
  }

  lemma WriteCanRun(s: State, tx: TxId, cast: Cast)
    requires tx in s.active && s.active[tx].phase.TenantSet? && Writes(s.active[tx].op) && !Waits(s, tx, cast)
    ensures Enabled(s, Execute(tx, Key(Devices, Uuid(0))), cast)
  {
  }

  // ----- one transaction alone -----

  /** The schedule of a transaction that no other one interrupts, for each way it can go. */
  function Schedule(tx: TxId, conn: nat, op: Op, pick: Key, fault: Repository.Fault, error: bool): seq<Action> {
    match fault
    case BeginFails => []
    case SetLocalFails => [Begin(tx, conn, op), Interrupt(tx), Rollback(tx)]
    case StatementFails => [Begin(tx, conn, op), SetLocal(tx), Interrupt(tx), Rollback(tx)]
    case NoFault => [Begin(tx, conn, op), SetLocal(tx), Execute(tx, pick), if error then Rollback(tx) else CommitTx(tx)]
    case CommitUnanswered =>
      [Begin(tx, conn, op), SetLocal(tx), Execute(tx, pick), if error then Rollback(tx) else CommitReplyLost(tx)]
    case CommitRefused =>
      [Begin(tx, conn, op), SetLocal(tx), Execute(tx, pick)] + (if error then [] else [Interrupt(tx)]) + [Rollback(tx)]
  }

  /** The transaction is over and everything else is as before. */
  ghost predicate Ended(s: State, s': State, tx: TxId, conn: nat) {
    && s'.active == s.active && s'.idle.Keys == s.idle.Keys && conn in s'.idle && Blank(s'.idle[conn])
    && s'.db.tenants == s.db.tenants && tx in s'.outcomes && s'.outcomes == s.outcomes[tx := s'.outcomes[tx]]
  }

  lemma Runs(s: State, a: Action, rest: seq<Action>, cast: Cast)
    ensures Run(s, [a] + rest, cast) == Run(Step(s, a, cast), rest, cast)
  {
    assert ([a] + rest)[1..] == rest;
  }

  lemma BeginsWithTenant(s: State, tx: TxId, conn: nat, op: Op, cast: Cast)
    requires s.active == map[] && conn in s.idle && tx !in s.outcomes
    ensures var s1 := Step(s, Begin(tx, conn, op), cast);
            var s2 := Step(s1, SetLocal(tx), cast);
            && s1 == s.(idle := s.idle - {conn}, active := map[tx := Tx(conn, op, s.idle[conn], Begun)])
            && s2 == s1.(active := map[tx := Tx(conn, op, Some(tx.tenant), TenantSet)])
  {
    assert map[tx := Tx(conn, op, s.idle[conn], Begun)][tx := Tx(conn, op, Some(tx.tenant), TenantSet)]
           == map[tx := Tx(conn, op, Some(tx.tenant), TenantSet)];
  }

  lemma Interrupted(s: State, s1: State, tx: TxId, conn: nat, cast: Cast)
    requires s.active == map[] && conn in s.idle && IdleBlank(s)
    requires tx in s1.active && s1.active == map[tx := s1.active[tx]] && s1.active[tx].conn == conn
    requires s1 == s.(idle := s.idle - {conn}, active := s1.active) && !s1.active[tx].phase.Aborted?
    requires s1.active[tx].setting == s.idle[conn] || s1.active[tx].setting == Some(tx.tenant)
    ensures var s' := Step(Step(s1, Interrupt(tx), cast), Rollback(tx), cast);
            Ended(s, s', tx, conn) && s'.db == s.db && s'.outcomes[tx] == Failed
  {
  }

  lemma FailsAlone(s: State, s3: State, tx: TxId, conn: nat, op: Op, effect: Effect, cast: Cast)
    requires s.active == map[] && conn in s.idle && effect.Error?
    requires s3 == s.(idle := s.idle - {conn}, active := map[tx := AfterStatement(tx, conn, op, effect)])
    ensures var s' := Step(s3, Rollback(tx), cast);
            Ended(s, s', tx, conn) && s'.db == s.db && s'.outcomes[tx] == Failed
  {
  }

  lemma CommitsAlone(s: State, s3: State, tx: TxId, conn: nat, op: Op, effect: Effect, cast: Cast)
    requires s.active == map[] && conn in s.idle && !effect.Error?
    requires s3 == s.(idle := s.idle - {conn}, active := map[tx := AfterStatement(tx, conn, op, effect)])
    ensures var done, lost := Step(s3, CommitTx(tx), cast), Step(s3, CommitReplyLost(tx), cast);
            && Ended(s, done, tx, conn) && done.outcomes[tx] == Done(effect) && done.db == Commit(s.db, effect)
            && Ended(s, lost, tx, conn) && lost.outcomes[tx] == Failed && lost.db == Commit(s.db, effect)
  {
  }

  function AfterStatement(tx: TxId, conn: nat, op: Op, effect: Effect): Tx {
    Tx(conn, op, Some(tx.tenant), if effect.Error? then Aborted else Executed(effect))
  }

  lemma StatementRunsAlone(s: State, s2: State, tx: TxId, conn: nat, op: Op, pick: Key, cast: Cast)
    requires s2 == s.(idle := s.idle - {conn}, active := map[tx := Tx(conn, op, Some(tx.tenant), TenantSet)])
    requires op.GetCloudCredential? ==> Statement(s.db, Some(tx.tenant), tx.tenant, op, pick, cast) != Answer(map[])
    ensures var effect := Statement(s.db, Some(tx.tenant), tx.tenant, op, pick, cast);
            Step(s2, Execute(tx, pick), cast) == s2.(active := map[tx := AfterStatement(tx, conn, op, effect)])
  {
    hide Statement, Target;
    assert Waits(s2, tx, cast) == false;
  }

  /**
    A transaction that meets no other one in the concurrent system ends as the sequential
    `WithTenantTx` does, for every fault: the same database, and success exactly for a statement
    without an error and a confirmed commit.
   */
  lemma TransactionAloneIsWithTenantTx(s: State, tx: TxId, conn: nat, op: Op, pick: Key, fault: Repository.Fault,
                                       cast: Cast)
    requires Inv(s, cast) && s.active == map[] && conn in s.idle && tx !in s.outcomes
    requires op.GetCloudCredential? ==> Statement(s.db, Some(tx.tenant), tx.tenant, op, pick, cast) != Answer(map[])
    ensures var effect := Statement(s.db, Some(tx.tenant), tx.tenant, op, pick, cast);
            var s' := Run(s, Schedule(tx, conn, op, pick, fault, effect.Error?), cast);
            && (fault.BeginFails? ==> s' == s)
            && (!fault.BeginFails? ==> Ended(s, s', tx, conn))
            && (!fault.BeginFails? ==> (s'.outcomes[tx].Done? <==> fault.NoFault? && !effect.Error?))
            && s'.db == if !effect.Error? && (fault.NoFault? || fault.CommitUnanswered?)
                        then Commit(s.db, effect) else s.db
  {
    var effect := Statement(s.db, Some(tx.tenant), tx.tenant, op, pick, cast);
    var begin := Begin(tx, conn, op);
    var s1 := Step(s, begin, cast);
    var s2 := Step(s1, SetLocal(tx), cast);
    var s3 := Step(s2, Execute(tx, pick), cast);
    BeginsWithTenant(s, tx, conn, op, cast);
    StatementRunsAlone(s, s2, tx, conn, op, pick, cast);
    if effect.Error? {
      FailsAlone(s, s3, tx, conn, op, effect, cast);
    } else {
      CommitsAlone(s, s3, tx, conn, op, effect, cast);
    }
    hide Statement, Step, Ended, Commit, Inv;
    match fault {
      case BeginFails =>
      case SetLocalFails => Interrupted(s, s1, tx, conn, cast); Three(s, begin, Interrupt(tx), Rollback(tx), cast);
      case StatementFails =>
        Interrupted(s, s2, tx, conn, cast);
        Four(s, begin, SetLocal(tx), Interrupt(tx), Rollback(tx), cast);
      case NoFault =>
        Four(s, begin, SetLocal(tx), Execute(tx, pick), if effect.Error? then Rollback(tx) else CommitTx(tx), cast);
      case CommitUnanswered =>
        Four(s, begin, SetLocal(tx), Execute(tx, pick),
             if effect.Error? then Rollback(tx) else CommitReplyLost(tx), cast);
      case CommitRefused => RefusedAlone(s, tx, conn, op, pick, cast);
    }
  }

  lemma RefusedAlone(s: State, tx: TxId, conn: nat, op: Op, pick: Key, cast: Cast)
    requires Inv(s, cast) && s.active == map[] && conn in s.idle && tx !in s.outcomes
    requires op.GetCloudCredential? ==> Statement(s.db, Some(tx.tenant), tx.tenant, op, pick, cast) != Answer(map[])
    ensures var effect := Statement(s.db, Some(tx.tenant), tx.tenant, op, pick, cast);
            var s' := Run(s, Schedule(tx, conn, op, pick, Repository.CommitRefused, effect.Error?), cast);
            Ended(s, s', tx, conn) && s'.db == s.db && s'.outcomes[tx] == Failed
  {
    var effect := Statement(s.db, Some(tx.tenant), tx.tenant, op, pick, cast);
    var begin, rest := Begin(tx, conn, op), [SetLocal(tx), Execute(tx, pick), Interrupt(tx), Rollback(tx)];
    var s1 := Step(s, begin, cast);
    var s2 := Step(s1, SetLocal(tx), cast);
    var s3 := Step(s2, Execute(tx, pick), cast);
    BeginsWithTenant(s, tx, conn, op, cast);
    StatementRunsAlone(s, s2, tx, conn, op, pick, cast);
    hide Statement, Step, Commit, Inv;
    var first := [begin, SetLocal(tx), Execute(tx, pick)];
    if effect.Error? {
      FailsAlone(s, s3, tx, conn, op, effect, cast);
      assert first + [] + [Rollback(tx)] == [begin, SetLocal(tx), Execute(tx, pick), Rollback(tx)];
      Four(s, begin, SetLocal(tx), Execute(tx, pick), Rollback(tx), cast);
    } else {
      Interrupted(s, s3, tx, conn, cast);
      assert first + [Interrupt(tx)] + [Rollback(tx)] == [begin] + rest;
      Runs(s, begin, rest, cast);
      Four(s1, SetLocal(tx), Execute(tx, pick), Interrupt(tx), Rollback(tx), cast);
    }
  }

  lemma Three(s: State, a: Action, b: Action, c: Action, cast: Cast)
    ensures Run(s, [a, b, c], cast) == Step(Step(Step(s, a, cast), b, cast), c, cast)
  {
    hide Step;
    assert [a, b, c] == [a] + ([b] + ([c] + []));
    Runs(s, a, [b] + ([c] + []), cast);
    Runs(Step(s, a, cast), b, [c] + [], cast);
    Runs(Step(Step(s, a, cast), b, cast), c, [], cast);
  }

  lemma Four(s: State, a: Action, b: Action, c: Action, d: Action, cast: Cast)
    ensures Run(s, [a, b, c, d], cast) == Step(Step(Step(Step(s, a, cast), b, cast), c, cast), d, cast)
  {
    hide Step;
    assert [a, b, c, d] == [a] + [b, c, d];
    Runs(s, a, [b, c, d], cast);
    Three(Step(s, a, cast), b, c, d, cast);
  }
}
