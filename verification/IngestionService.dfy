/** The service's handler and one worker's loop as sequential code. Connection 0 stands for the one
    the pool hands out. */
module IngestionService {
  import TenantDb
  import Repository
  import opened Ingestion
  import IngestionTheorems

  /** The database after a list of tasks is processed in order. */
  function ProcessAll(cfg: Config, db: TenantDb.Db, tasks: seq<Task>, now: nat -> int,
      fault: nat -> Repository.Fault): TenantDb.Db {
    if tasks == [] then db
    else
      var n := |tasks| - 1;
      Process(cfg, ProcessAll(cfg, db, tasks[..n], now, fault), tasks[n], now(n), fault(n)).db
  }

  class IngestionService {
    const cfg: Config
    const capacity: nat
    const repo: Repository.Repository?
    var taskChan: seq<Task>
    var closed: bool

    ghost predicate Valid()
      reads this, repo
    {
      && |taskChan| <= capacity
      && (cfg.hasRepo <==> repo != null)
      && (repo != null ==> repo.Valid() && repo.cast == cfg.cast && 0 in repo.idle)
    }

    constructor (cfg: Config, bufferSize: int, repo: Repository.Repository?)
      requires cfg.hasRepo <==> repo != null
      requires repo != null ==> repo.Valid() && repo.cast == cfg.cast && 0 in repo.idle
      ensures Valid() && taskChan == [] && !closed && this.cfg == cfg && this.repo == repo
      ensures capacity == if bufferSize >= 1 then bufferSize else 1000
    {
      this.cfg := cfg;
      this.capacity := if bufferSize <= 0 then 1000 else bufferSize;
      this.repo := repo;
      taskChan, closed := [], false;
    }

    /** 202 exactly when the task joined the end of the channel; otherwise nothing changes. */
    method HandleTelemetry(tenant: string, body: string, readFails: bool) returns (status: int)
      requires Valid() && !closed
      modifies this`taskChan
      ensures Valid()
      ensures status == 400 <==> tenant == "" || readFails || body == ""
      ensures status == 503 <==> tenant != "" && !readFails && body != "" && |old(taskChan)| == capacity
      ensures status == 202 <==> tenant != "" && !readFails && body != "" && |old(taskChan)| < capacity
      ensures taskChan == if status == 202 then old(taskChan) + [Task(tenant, body)] else old(taskChan)
    {
      if tenant == "" || readFails || body == "" {
        return BAD_REQUEST;
      }
      if |taskChan| < capacity {
        taskChan := taskChan + [Task(tenant, body)];
        return ACCEPTED;
      }
      return SATURATED;
    }

    /** A row that a processed task leaves behind under its device id is made from that task alone. */
    method ProcessTask(task: Task, now: int, fault: Repository.Fault) returns (verdict: Verdict)
      requires Valid()
      modifies repo
      ensures Valid()
      ensures repo != null ==>
                && var o := Process(cfg, old(repo.db), task, now, fault);
                && repo.db == o.db && verdict == o.verdict
                && (verdict == Persisted ==>
                      && IngestionTheorems.DeviceKey(cfg, task).Some?
                      && var k := IngestionTheorems.DeviceKey(cfg, task).value;
                         k in repo.db.rows && IngestionTheorems.MadeFrom(cfg, task, k, repo.db.rows[k]))
      ensures repo == null ==> verdict != Persisted && verdict != SaveFailed
      ensures verdict == BadJson <==> cfg.decode(task.payload).None?
      ensures cfg.decode(task.payload).Some? ==>
                var m := cfg.decode(task.payload).value;
                && (verdict == NoDeviceId <==> m.deviceUuid == "" && m.hostname == "")
                && (verdict == DryRun <==> (m.deviceUuid != "" || m.hostname != "") && repo == null)
                && (repo != null ==>
                      var id := cfg.cast(if m.deviceUuid != "" then m.deviceUuid else m.hostname);
                      && (verdict == Persisted <==>
                            fault.NoFault?
                            && Repository.CanSave(old(repo.db), TenantDb.Devices, id, cfg.cast(task.tenant)))
                      && (verdict == Persisted ==>
                            repo.db.rows == old(repo.db.rows)[TenantDb.Key(TenantDb.Devices, id.value) :=
                              TenantDb.Row(cfg.cast(task.tenant).value,
                                           TenantDb.DeviceColumns(m.hostname, task.payload, now))]))
    {
      var payload := cfg.decode(task.payload);
      if payload.None? {
        return BadJson;
      }
      var deviceId := payload.value.deviceUuid;
      if deviceId == "" {
        deviceId := payload.value.hostname;
      }
      if deviceId == "" {
        return NoDeviceId;
      }
      if repo == null {
        return DryRun;
      }
      var op := TenantDb.SaveDevice(deviceId, payload.value.hostname, task.payload, now);
      IngestionTheorems.SavedRowIsMadeFromTask(cfg, repo.db, task, now, fault);
      IngestionTheorems.ProcessMeaning(cfg, repo.db, task, now, fault);
      var r := repo.WithTenantTx(0, task.tenant, op, TenantDb.Key(TenantDb.Devices, TenantDb.Uuid(0)), fault);
      return if r.Some? then Persisted else SaveFailed;
    }

    /** A worker alone on the channel: it processes the tasks in the order they were accepted, and
        leaves the rest only when it sees the cancellation first. On an empty channel that is still
        open it waits for the cancellation or the close, and either ends it. */
    method Work(cancelled: nat -> bool, now: nat -> int, fault: nat -> Repository.Fault) returns (done: nat)
      requires Valid()
      modifies this`taskChan, repo
      ensures Valid()
      ensures done <= |old(taskChan)| && taskChan == old(taskChan)[done..]
      ensures taskChan != [] ==> cancelled(done)
      ensures forall i :: 0 <= i < done ==> !cancelled(i)
      ensures repo != null ==> repo.db == ProcessAll(cfg, old(repo.db), old(taskChan)[..done], now, fault)
    {
      done := 0;
      while true
        invariant Valid()
        invariant forall i :: 0 <= i < done ==> !cancelled(i)
        invariant done <= |old(taskChan)| && taskChan == old(taskChan)[done..]
        invariant repo != null ==> repo.db == ProcessAll(cfg, old(repo.db), old(taskChan)[..done], now, fault)
        decreases |taskChan|
      {
        if cancelled(done) {
          return;
        }
        if taskChan == [] {
          return;
        }
        var task := taskChan[0];
        taskChan := taskChan[1..];
        assert old(taskChan)[..done + 1] == old(taskChan)[..done] + [task];
        var verdict := ProcessTask(task, now(done), fault(done));
        done := done + 1;
      }
    }
  }
}
