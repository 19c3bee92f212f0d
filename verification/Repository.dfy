/** The repository as sequential code: one operation at a time over the pool, with every way a
    transaction can end. */
module Repository {
  import opened Wrappers
  import opened TenantDb
  import TenantTheorems

  datatype Fault = NoFault | BeginFails | SetLocalFails | StatementFails | CommitRefused | CommitUnanswered

  datatype DeviceRecord = DeviceRecord(device: Uuid, tenant: Uuid, columns: Columns)

  function Record(key: Key, row: Row): DeviceRecord {
    DeviceRecord(key.id, row.tenant, row.columns)
  }

  predicate OwnCredential(db: Db, k: Key, tenant: Uuid) {
    k in db.rows && k.table == CloudCredentials && db.rows[k].tenant == tenant
  }

  lemma OwnCredentialsAreSelected(db: Db, tenant: Uuid)
    ensures var found := Select(db, Is(tenant), CloudCredentials, tenant);
            && (forall k :: k in found <==> OwnCredential(db, k, tenant))
            && (found == map[] <==> forall k :: !OwnCredential(db, k, tenant))
  {
    var found := Select(db, Is(tenant), CloudCredentials, tenant);
    if found != map[] {
      var k :| k in found;
      assert OwnCredential(db, k, tenant);
    }
  }

  /** A save can succeed: the texts are UUIDs, and the id is the tenant's own or new, in which case
      the tenant must be registered. */
  ghost predicate CanSave(db: Db, table: Table, id: Option<Uuid>, tenant: Option<Uuid>) {
    && id.Some? && tenant.Some?
    && var k := Key(table, id.value);
       if k in db.rows then db.rows[k].tenant == tenant.value else tenant.value in db.tenants
  }

  class Repository {
    const cast: Cast
    var db: Db
    var idle: map<nat, Option<string>>

    ghost predicate Valid()
      reads this
    {
      (forall c :: c in idle ==> Blank(idle[c])) && Typed(db)
    }

    constructor (connections: set<nat>, cast: Cast)
      ensures Valid() && idle.Keys == connections && db == Db(map[], map[]) && this.cast == cast
    {
      this.cast := cast;
      db := Db(map[], map[]);
      idle := map c | c in connections :: None;
    }

    /**
      All or nothing on every exit path: success is exactly a statement without an error and a
      confirmed commit; otherwise nothing happened, unless the commit did and its reply was lost.
      The connection always goes back to the pool, and carries no tenant.
     */
    method WithTenantTx(conn: nat, tenant: string, op: Op, pick: Key, fault: Fault) returns (r: Option<Effect>)
      requires Valid() && conn in idle
      modifies this
      ensures Valid() && idle.Keys == old(idle.Keys)
      ensures var effect := Statement(old(db), Some(tenant), tenant, op, pick, cast);
              && (r.Some? <==> fault.NoFault? && !effect.Error?)
              && (r.Some? ==> r.value == effect && db == Commit(old(db), effect))
              && (r.None? ==> db == if fault.CommitUnanswered? then Commit(old(db), effect) else old(db))
    {
      if fault.BeginFails? {
        return None;
      }
      var setting := idle[conn];
      idle := idle - {conn};
      r := None;
      StatementKeepsTyped(db, Some(tenant), tenant, op, pick, cast);
      if !fault.SetLocalFails? {
        setting := Some(tenant);
        var effect := Statement(db, setting, tenant, op, pick, cast);
        if !fault.StatementFails? && !effect.Error? && !fault.CommitRefused? {
          db := Commit(db, effect);
          r := if fault.CommitUnanswered? then None else Some(effect);
        }
      }
      idle := idle[conn := AfterTransaction(setting)];
    }

    /** Registering a tenant, or renaming it: one statement, outside any tenant's transaction. */
    method UpsertTenant(tenant: string, name: string, fails: bool) returns (ok: bool)
      requires Valid()
      modifies this
      ensures Valid() && idle == old(idle) && db.rows == old(db.rows)
      ensures ok <==> !fails && cast(tenant).Some?
      ensures db.tenants == if ok then old(db.tenants)[cast(tenant).value := name] else old(db.tenants)
    {
      var id := cast(tenant);
      ok := !fails && id.Some?;
      if ok {
        db := db.(tenants := db.tenants[id.value := name]);
      }
    }

    /** A save that succeeds leaves one row under its id, of the tenant that saved it, and no other
        row is different; a save that conflicts with another tenant's row does not succeed. */
    method SaveDevice(conn: nat, tenant: string, deviceId: string, hostname: string, specs: string, now: int,
        fault: Fault)
      returns (ok: bool)
      requires Valid() && conn in idle
      modifies this
      ensures Valid() && idle.Keys == old(idle.Keys) && db.tenants == old(db.tenants)
      ensures ok <==> fault.NoFault? && CanSave(old(db), Devices, cast(deviceId), cast(tenant))
      ensures ok ==> db.rows == old(db.rows)[Key(Devices, cast(deviceId).value) :=
                                               Row(cast(tenant).value, DeviceColumns(hostname, specs, now))]
      ensures forall k :: k in old(db.rows) ==> k in db.rows && db.rows[k].tenant == old(db.rows)[k].tenant
      ensures (&& cast(deviceId).Some? && Key(Devices, cast(deviceId).value) in old(db.rows)
               && cast(tenant) != Some(old(db.rows)[Key(Devices, cast(deviceId).value)].tenant))
              ==> !ok && db == old(db)
      ensures !ok && !fault.CommitUnanswered? ==> db == old(db)
    {
      assert cast("") == None;
      var op := Op.SaveDevice(deviceId, hostname, specs, now);
      ghost var effect := WriteStatement(db, Some(tenant), tenant, op, cast);
      if effect.Staged? {
        TenantTheorems.WriteStaysInTenant(db, tenant, op, cast);
      }
      var r := WithTenantTx(conn, tenant, op, Key(Devices, Uuid(0)), fault);
      ok := r.Some?;
    }

    /** A token that is saved again gets the new wrapped key and ciphertext together, and keeps its provider. */
    method SaveOAuthToken(conn: nat, tokenId: string, tenant: string, provider: string, dek: string, ciphertext: string,
                          fault: Fault)
      returns (ok: bool)
      requires Valid() && conn in idle
      modifies this
      ensures Valid() && idle.Keys == old(idle.Keys) && db.tenants == old(db.tenants)
      ensures ok <==> fault.NoFault? && CanSave(old(db), OAuthTokens, cast(tokenId), cast(tenant))
      ensures ok ==>
                var k := Key(OAuthTokens, cast(tokenId).value);
                && k in db.rows && db.rows == old(db.rows)[k := db.rows[k]]
                && db.rows[k] == Row(cast(tenant).value, TokenColumns(
                                   if k in old(db.rows) && old(db.rows)[k].columns.TokenColumns?
                                   then old(db.rows)[k].columns.provider else provider, dek, ciphertext))
      ensures !ok && !fault.CommitUnanswered? ==> db == old(db)
    {
      assert cast("") == None;
      var op := Op.SaveOAuthToken(tokenId, provider, dek, ciphertext);
      var r := WithTenantTx(conn, tenant, op, Key(OAuthTokens, Uuid(0)), fault);
      ok := r.Some?;
    }

    /** A credential that is saved again gets the new role and external id together. */
    method SaveCloudCredential(conn: nat, credId: string, tenant: string, roleArn: string, externalId: string,
                               fault: Fault)
      returns (ok: bool)
      requires Valid() && conn in idle
      modifies this
      ensures Valid() && idle.Keys == old(idle.Keys) && db.tenants == old(db.tenants)
      ensures ok <==> fault.NoFault? && CanSave(old(db), CloudCredentials, cast(credId), cast(tenant))
      ensures ok ==> db.rows == old(db.rows)[Key(CloudCredentials, cast(credId).value) :=
                                               Row(cast(tenant).value, CredentialColumns(roleArn, externalId))]
      ensures !ok && !fault.CommitUnanswered? ==> db == old(db)
    {
      assert cast("") == None;
      var op := Op.SaveCloudCredential(credId, roleArn, externalId);
      var r := WithTenantTx(conn, tenant, op, Key(CloudCredentials, Uuid(0)), fault);
      ok := r.Some?;
    }

    /** One of the tenant's own credentials, if it has any; which one is left open. */
    method GetCloudCredential(conn: nat, tenant: string, pick: Key, fault: Fault) returns (r: Option<(string, string)>)
      requires Valid() && conn in idle
      requires cast(tenant).Some? ==>
                 OwnCredential(db, pick, cast(tenant).value) || forall k :: !OwnCredential(db, k, cast(tenant).value)
      modifies this
      ensures Valid() && idle.Keys == old(idle.Keys) && db == old(db)
      ensures r.Some? ==> cast(tenant).Some? && OwnCredential(db, pick, cast(tenant).value)
                          && db.rows[pick].columns == CredentialColumns(r.value.0, r.value.1)
      ensures r.Some? <==> fault.NoFault? && cast(tenant).Some? && OwnCredential(db, pick, cast(tenant).value)
      ensures r.None? && fault.NoFault? && cast(tenant).Some? ==>
                forall k :: !OwnCredential(db, k, cast(tenant).value)
    {
      assert cast("") == None;
      if cast(tenant).Some? {
        OwnCredentialsAreSelected(db, cast(tenant).value);
      }
      var answer := WithTenantTx(conn, tenant, Op.GetCloudCredential, pick, fault);
      match answer {
        case None => r := None;
        case Some(effect) =>
          assert pick in effect.found;
          var columns := effect.found[pick].columns;
          r := Some((columns.roleArn, columns.externalId));
      }
    }

    /** The answer is the tenant's devices of the whole table, each of them once. */
    method GetDevicesForTenant(conn: nat, tenant: string, fault: Fault) returns (r: Option<seq<DeviceRecord>>)
      requires Valid() && conn in idle
      modifies this
      ensures Valid() && idle.Keys == old(idle.Keys) && db == old(db)
      ensures r.Some? <==> fault.NoFault? && cast(tenant).Some?
      ensures r.Some? ==> forall i, j :: 0 <= i < j < |r.value| ==> r.value[i].device != r.value[j].device
      ensures r.Some? ==> forall d :: d in r.value <==>
                exists k :: k in db.rows && k.table == Devices && db.rows[k].tenant == cast(tenant).value &&
                    d == Record(k, db.rows[k])
    {
      var answer := WithTenantTx(conn, tenant, GetDevices, Key(Devices, Uuid(0)), fault);
      match answer {
        case None => r := None;
        case Some(effect) =>
          assert cast("") == None;
          assert forall k :: k in effect.found <==>
                   k in db.rows && k.table == Devices && db.rows[k].tenant == cast(tenant).value;
          var results := CollectDevices(effect.found);
          assert forall k :: k in effect.found ==> effect.found[k] == db.rows[k];
          r := Some(results);
      }
    }

    static method CollectDevices(found: map<Key, Row>) returns (results: seq<DeviceRecord>)
      requires forall k :: k in found ==> k.table == Devices
      ensures forall i, j :: 0 <= i < j < |results| ==> results[i].device != results[j].device
      ensures forall d :: d in results <==> exists k :: k in found && d == Record(k, found[k])
    {
      results := [];
      var rest := found.Keys;
      while rest != {}
        invariant rest <= found.Keys
        invariant forall d :: d in results <==> exists k :: k in found && k !in rest && d == Record(k, found[k])
        invariant forall i, j :: 0 <= i < j < |results| ==> results[i].device != results[j].device
        decreases rest
      {
        var k :| k in rest;
        forall i | 0 <= i < |results| ensures results[i].device != k.id {
          assert results[i] in results;
        }
        results := results + [Record(k, found[k])];
        rest := rest - {k};
      }
    }
  }

  /** What a tenant saved as its only credential is what it gets, field by field. */
  method SaveThenGetCredential(repo: Repository, credId: string, tenant: string, roleArn: string, externalId: string)
    returns (r: Option<(string, string)>)
    requires repo.Valid() && 0 in repo.idle
    requires CanSave(repo.db, CloudCredentials, repo.cast(credId), repo.cast(tenant))
    requires forall k :: OwnCredential(repo.db, k, repo.cast(tenant).value) ==> k.id == repo.cast(credId).value
    modifies repo
    ensures repo.Valid() && r == Some((roleArn, externalId))
  {
    var k := Key(CloudCredentials, repo.cast(credId).value);
    var ok := repo.SaveCloudCredential(0, credId, tenant, roleArn, externalId, NoFault);
    assert OwnCredential(repo.db, k, repo.cast(tenant).value);
    r := repo.GetCloudCredential(0, tenant, k, NoFault);
  }

  /** A device that was saved is among the tenant's devices, as it was saved, and no older record of it is. */
  method SaveThenGetDevices(repo: Repository, deviceId: string, tenant: string, hostname: string, specs: string,
                            now: int)
    returns (r: Option<seq<DeviceRecord>>)
    requires repo.Valid() && 0 in repo.idle
    requires CanSave(repo.db, Devices, repo.cast(deviceId), repo.cast(tenant))
    modifies repo
    ensures repo.Valid() && r.Some?
    ensures forall d :: d in r.value && d.device == repo.cast(deviceId).value <==>
              d == DeviceRecord(repo.cast(deviceId).value, repo.cast(tenant).value, DeviceColumns(hostname, specs, now))
  {
    var k := Key(Devices, repo.cast(deviceId).value);
    var ok := repo.SaveDevice(0, tenant, deviceId, hostname, specs, now, NoFault);
    r := repo.GetDevicesForTenant(0, tenant, NoFault);
    assert Record(k, repo.db.rows[k]) in r.value;
  }
}
