/** What holds in every run of the ingestion service. */
module IngestionTheorems {
  import opened Wrappers
  import TenantDb
  import Repository
  import opened Ingestion

  predicate Queued(s: State, i: nat) {
    i in s.queue
  }

  predicate HeldBy(s: State, w: int, i: nat) {
    0 <= w < |s.workers| && s.workers[w] == Busy(i)
  }

  predicate ProcessedAt(s: State, k: int, i: nat) {
    0 <= k < |s.processed| && s.processed[k].ticket == i
  }

  ghost predicate InProgress(s: State, i: nat) {
    exists w :: HeldBy(s, w, i)
  }

  ghost predicate Finished(s: State, i: nat) {
    exists k :: ProcessedAt(s, k, i)
  }

  lemma HeldMeaning(s: State, i: nat)
    ensures i in Held(s.workers) <==> InProgress(s, i)
    ensures i in Done(s.processed) <==> Finished(s, i)
  {
    if i in Held(s.workers) {
      var w :| 0 <= w < |s.workers| && s.workers[w].Busy? && s.workers[w].ticket == i;
      assert HeldBy(s, w, i);
    }
    if i in Done(s.processed) {
      var k :| 0 <= k < |s.processed| && s.processed[k].ticket == i;
      assert ProcessedAt(s, k, i);
    }
  }

  /** A task that was answered 202 is in the channel, with one worker, or processed once: exactly
      one of the three, in every state that satisfies the invariant. */
  lemma TicketIsInOnePlace(s: State, i: nat)
    requires Inv(s) && i < |s.accepted|
    ensures Queued(s, i) || InProgress(s, i) || Finished(s, i)
    ensures !(Queued(s, i) && InProgress(s, i)) && !(Queued(s, i) && Finished(s, i))
    ensures !(InProgress(s, i) && Finished(s, i))
    ensures forall v, w :: HeldBy(s, v, i) && HeldBy(s, w, i) ==> v == w
    ensures forall j, k :: ProcessedAt(s, j, i) && ProcessedAt(s, k, i) ==> j == k
  {
    hide ReplyInv;
    HeldMeaning(s, i);
    assert i in Held(s.workers) || i in Done(s.processed) <==> i < Taken(s);
    if i >= Taken(s) {
      assert s.queue[i - Taken(s)] == i;
    }
  }

  /** Safety of the pool, whatever the interleaving of handlers, workers and shutdown. */
  lemma PoolIsSafe(cfg: Config, workers: int, bufferSize: int, actions: seq<Action>)
    ensures var s := Run(cfg, NewService(workers, bufferSize), actions);
            && |s.queue| <= s.capacity && s.capacity == (if bufferSize >= 1 then bufferSize else 1000)
            && |s.workers| == (if workers >= 1 then workers else 50)
            && !s.panicked
            && (forall h :: h in s.replies ==>
                  (s.replies[h] == ACCEPTED <==> exists i :: 0 <= i < |s.accepted| && s.accepted[i].handler == h))
            && (forall i, j :: 0 <= i < j < |s.accepted| ==> s.accepted[i].handler != s.accepted[j].handler)
            && (forall i: nat :: i < |s.accepted| ==> Queued(s, i) || InProgress(s, i) || Finished(s, i))
  {
    var s := Run(cfg, NewService(workers, bufferSize), actions);
    NewServiceInv(workers, bufferSize);
    RunKeepsInv(cfg, NewService(workers, bufferSize), actions);
    RunKeepsSize(cfg, NewService(workers, bufferSize), actions);
    forall h | h in s.replies
      ensures s.replies[h] == ACCEPTED <==> exists i :: 0 <= i < |s.accepted| && s.accepted[i].handler == h
    {
      assert Enqueued(s.accepted, h) <==> exists i :: 0 <= i < |s.accepted| && s.accepted[i].handler == h;
    }
    forall i: nat | i < |s.accepted| ensures Queued(s, i) || InProgress(s, i) || Finished(s, i) {
      TicketIsInOnePlace(s, i);
    }
  }

  lemma StepKeepsSize(cfg: Config, s: State, a: Action)
    ensures Step(cfg, s, a).capacity == s.capacity && |Step(cfg, s, a).workers| == |s.workers|
  {
    hide Process;
  }

  lemma {:induction false} RunKeepsSize(cfg: Config, s: State, actions: seq<Action>)
    ensures Run(cfg, s, actions).capacity == s.capacity && |Run(cfg, s, actions).workers| == |s.workers|
    decreases |actions|
  {
    hide Step;
    if actions != [] {
      StepKeepsSize(cfg, s, actions[0]);
      RunKeepsSize(cfg, Step(cfg, s, actions[0]), actions[1..]);
    }
  }

  // ----- what each request is answered -----

  predicate Malformed(r: Handler, readFails: bool) {
    r.tenant == "" || readFails || r.body == ""
  }

  /** The reply of one offer, whatever else is going on: malformed requests are refused, and others
      are taken exactly while the channel has room. */
  lemma OfferIsAnswered(cfg: Config, s: State, h: nat, readFails: bool)
    requires Inv(s) && h in s.handlers
    ensures var r, s' := s.handlers[h], Step(cfg, s, Offer(h, readFails));
            && h in s'.replies && h !in s'.handlers && s'.db == s.db && s'.workers == s.workers
            && (s'.replies[h] == 400 <==> r.tenant == "" || readFails || r.body == "")
            && (s'.replies[h] == 202 <==>
                  r.tenant != "" && !readFails && r.body != "" && |s.queue| < s.capacity)
            && (s'.replies[h] == 503 <==>
                  r.tenant != "" && !readFails && r.body != "" && |s.queue| == s.capacity)
            && (if s'.replies[h] == 202
                then && s'.queue == s.queue + [|s.accepted|]
                     && s'.accepted == s.accepted + [Accepted(Task(r.tenant, r.body), h)]
                else s'.queue == s.queue && s'.accepted == s.accepted)
  {
    hide TicketInv, ReplyInv;
  }

  /** What the order of the shutdown is for: a send on the closed channel would panic. */
  lemma OfferOnClosedChannelPanics(cfg: Config, s: State, h: nat, readFails: bool)
    requires s.closed && h in s.handlers && !s.panicked
    ensures Step(cfg, s, Offer(h, readFails)).panicked <==> !Malformed(s.handlers[h], readFails)
  {
  }

  lemma ReplyIsFinal(cfg: Config, s: State, a: Action, h: nat)
    requires Inv(s) && h in s.replies
    ensures h in Step(cfg, s, a).replies && Step(cfg, s, a).replies[h] == s.replies[h]
  {
    hide Process, ChannelInv, TicketInv;
  }

  lemma {:induction false} RepliesLast(cfg: Config, s: State, actions: seq<Action>, h: nat)
    requires Inv(s) && h in s.replies
    ensures h in Run(cfg, s, actions).replies && Run(cfg, s, actions).replies[h] == s.replies[h]
    decreases |actions|
  {
    hide Inv, Step;
    if actions != [] {
      StepKeepsInv(cfg, s, actions[0]);
      ReplyIsFinal(cfg, s, actions[0], h);
      RepliesLast(cfg, Step(cfg, s, actions[0]), actions[1..], h);
    }
  }

  /** The request was offered by action i, and answered as the channel was at that moment. */
  predicate AnsweredAt(cfg: Config, s: State, actions: seq<Action>, i: nat, h: nat, status: int) {
    && i < |actions| && actions[i].Offer? && actions[i].h == h
    && var before := Run(cfg, s, actions[..i]);
       && h in before.handlers
       && status == if Malformed(before.handlers[h], actions[i].readFails) then 400
                    else if |before.queue| < before.capacity then 202
                    else 503
  }

  /** In every run every reply has its reason at the moment of its offer: in particular 503 is
      answered only while the channel is full, and 202 only while it is not. */
  lemma {:induction false} ReplyHasReason(cfg: Config, s: State, actions: seq<Action>, h: nat) returns (i: nat)
    requires Inv(s) && h !in s.replies && h in Run(cfg, s, actions).replies
    ensures AnsweredAt(cfg, s, actions, i, h, Run(cfg, s, actions).replies[h])
    decreases |actions|
  {
    hide Inv, Step, Malformed;
    var a, rest := actions[0], actions[1..];
    var s1 := Step(cfg, s, a);
    StepKeepsInv(cfg, s, a);
    assert actions[..0] == [];
    if h in s1.replies {
      i := 0;
      OnlyOffersAreAnswered(cfg, s, a, h);
      OfferStatus(cfg, s, h, a.readFails);
      RepliesLast(cfg, s1, rest, h);
    } else {
      i := ReplyHasReason(cfg, s1, rest, h);
      i := i + 1;
      assert actions[..i][0] == a && actions[..i][1..] == rest[..i - 1];
    }
  }

  lemma OnlyOffersAreAnswered(cfg: Config, s: State, a: Action, h: nat)
    requires h !in s.replies && h in Step(cfg, s, a).replies
    ensures a.Offer? && a.h == h && h in s.handlers
  {
    hide Process;
  }

  lemma OfferStatus(cfg: Config, s: State, h: nat, readFails: bool)
    requires Inv(s) && h in s.handlers
    ensures var s' := Step(cfg, s, Offer(h, readFails));
            h in s'.replies && s'.replies[h] == if Malformed(s.handlers[h], readFails) then 400
                                                else if |s.queue| < s.capacity then 202
                                                else 503
  {
    hide Step, TicketInv, ReplyInv;
    OfferIsAnswered(cfg, s, h, readFails);
  }

  // ----- what processing a task does -----

  /** The verdict and the effect of processing, in the fields of the payload's metadata: the device
      id is the device UUID, or the hostname if there is none. */
  lemma ProcessMeaning(cfg: Config, db: TenantDb.Db, task: Task, now: int, fault: Repository.Fault)
    ensures var o := Process(cfg, db, task, now, fault);
            && (o.verdict == BadJson <==> cfg.decode(task.payload) == None)
            && (o.verdict == Persisted ==> o.saved)
            && (cfg.decode(task.payload).Some? ==>
                  var m := cfg.decode(task.payload).value;
                  var id := cfg.cast(if m.deviceUuid != "" then m.deviceUuid else m.hostname);
                  var tenant := cfg.cast(task.tenant);
                  && (o.verdict == NoDeviceId <==> m.deviceUuid == "" && m.hostname == "")
                  && (o.verdict == DryRun <==> (m.deviceUuid != "" || m.hostname != "") && !cfg.hasRepo)
                  && (o.saved <==> cfg.hasRepo && (fault.NoFault? || fault.CommitUnanswered?)
                                   && Repository.CanSave(db, TenantDb.Devices, id, tenant))
                  && (o.verdict == Persisted <==> o.saved && fault.NoFault?)
                  && (o.saved ==>
                        o.db == db.(rows := db.rows[TenantDb.Key(TenantDb.Devices, id.value) :=
                            TenantDb.Row(tenant.value, TenantDb.DeviceColumns(m.hostname, task.payload, now))])))
            && (o.saved ==> o.verdict == Persisted || o.verdict == SaveFailed)
            && (!o.saved ==> o.db == db)
  {
    assert cfg.cast("") == None;
  }

  /** The record a task is for: its device UUID, or its hostname if it has none. */
  lemma DeviceKeyMeaning(cfg: Config, task: Task, k: TenantDb.Key)
    ensures DeviceKey(cfg, task) == Some(k) <==>
            && k.table.Devices? && cfg.decode(task.payload).Some?
            && var m := cfg.decode(task.payload).value;
               && (m.deviceUuid != "" ==> cfg.cast(m.deviceUuid) == Some(k.id))
               && (m.deviceUuid == "" ==> cfg.cast(m.hostname) == Some(k.id))
  {
  }

  /** What was noted for one processed task is what processing it means. */
  ghost predicate VerdictRight(cfg: Config, s: State, p: Processed) {
    && p.ticket < |s.accepted|
    && var decoded := cfg.decode(s.accepted[p.ticket].task.payload);
       && (p.verdict == BadJson <==> decoded == None)
       && (p.verdict == Persisted ==> p.saved)
       && (p.saved ==> p.verdict == Persisted || p.verdict == SaveFailed)
       && (decoded.Some? ==>
             && (p.verdict == NoDeviceId <==> decoded.value.deviceUuid == "" && decoded.value.hostname == "")
             && (p.verdict == DryRun <==>
                   (decoded.value.deviceUuid != "" || decoded.value.hostname != "") && !cfg.hasRepo))
  }

  ghost predicate VerdictsInv(cfg: Config, s: State) {
    forall k :: 0 <= k < |s.processed| ==> VerdictRight(cfg, s, s.processed[k])
  }

  lemma StepKeepsVerdicts(cfg: Config, s: State, a: Action)
    requires VerdictsInv(cfg, s)
    ensures VerdictsInv(cfg, Step(cfg, s, a))
  {
    hide Process;
    var s' := Step(cfg, s, a);
    if a.Finish? && Enabled(s, a) {
      FinishIsRight(cfg, s, a);
    } else {
      OnlyFinishSaves(cfg, s, a);
      hide Step;
    }
    forall k | 0 <= k < |s'.processed| ensures VerdictRight(cfg, s', s'.processed[k]) {
      assert k < |s.processed| ==> VerdictRight(cfg, s, s.processed[k]);
    }
  }

  lemma FinishIsRight(cfg: Config, s: State, a: Action)
    requires a.Finish? && Enabled(s, a)
    ensures var s' := Step(cfg, s, a);
            && s'.accepted == s.accepted && |s'.processed| == |s.processed| + 1 && s.processed <= s'.processed
            && VerdictRight(cfg, s', s'.processed[|s.processed|])
  {
    hide Process;
    ProcessMeaning(cfg, s.db, s.accepted[s.workers[a.w].ticket].task, a.now, a.fault);
  }

  /** In every run the worker's verdict on each task is right. */
  lemma {:induction false} EveryVerdictIsRight(cfg: Config, s: State, actions: seq<Action>)
    requires VerdictsInv(cfg, s)
    ensures VerdictsInv(cfg, Run(cfg, s, actions))
    decreases |actions|
  {
    hide VerdictsInv, Step;
    if actions != [] {
      StepKeepsVerdicts(cfg, s, actions[0]);
      EveryVerdictIsRight(cfg, Step(cfg, s, actions[0]), actions[1..]);
    }
  }

  // ----- provenance of device rows -----

  /** Every column of the row, and its key, come from this one task: the id is the device UUID of
      its metadata, or the hostname if there is none. */
  predicate MadeFrom(cfg: Config, task: Task, k: TenantDb.Key, row: TenantDb.Row) {
    && cfg.decode(task.payload).Some?
    && var m := cfg.decode(task.payload).value;
       && k.table.Devices?
       && cfg.cast(task.tenant) == Some(row.tenant)
       && (m.deviceUuid != "" ==> cfg.cast(m.deviceUuid) == Some(k.id))
       && (m.deviceUuid == "" ==> cfg.cast(m.hostname) == Some(k.id))
       && row.columns.DeviceColumns?
       && row.columns.hostname == m.hostname
       && row.columns.hardwareSpecs == task.payload
  }

  /** The row a task's save would write. */
  function DeviceKey(cfg: Config, task: Task): Option<TenantDb.Key> {
    match cfg.decode(task.payload)
    case None => None
    case Some(m) =>
      match cfg.cast(DeviceId(m))
      case None => None
      case Some(id) => Some(TenantDb.Key(TenantDb.Devices, id))
  }

  /** Entry j of the log of processed tasks saved this row. */
  predicate SavedAt(cfg: Config, s: State, j: int, k: TenantDb.Key, row: TenantDb.Row) {
    && 0 <= j < |s.processed| && s.processed[j].saved
    && s.processed[j].ticket < |s.accepted|
    && MadeFrom(cfg, s.accepted[s.processed[j].ticket].task, k, row)
  }

  /** No entry after j saved the row under this key. */
  ghost predicate LastSaveAt(cfg: Config, s: State, j: int, k: TenantDb.Key) {
    forall l :: j < l < |s.processed| && 0 <= l && s.processed[l].saved && s.processed[l].ticket < |s.accepted|
                ==> DeviceKey(cfg, s.accepted[s.processed[l].ticket].task) != Some(k)
  }

  ghost predicate FromLastSave(cfg: Config, s: State, k: TenantDb.Key, row: TenantDb.Row) {
    exists j :: SavedAt(cfg, s, j, k, row) && LastSaveAt(cfg, s, j, k)
  }

  ghost predicate ProvenanceInv(cfg: Config, s: State) {
    && (forall l :: 0 <= l < |s.processed| ==> s.processed[l].ticket < |s.accepted|)
    && (forall k :: k in s.db.rows ==> FromLastSave(cfg, s, k, s.db.rows[k]))
  }

  /** An upsert may keep the stored tenant, but under the policies that is the tenant of the task. */
  lemma SavedRowIsMadeFromTask(cfg: Config, db: TenantDb.Db, task: Task, now: int, fault: Repository.Fault)
    ensures var o := Process(cfg, db, task, now, fault);
            && (!o.saved ==> o.db == db)
            && (o.saved ==> DeviceKey(cfg, task).Some?
                            && var k := DeviceKey(cfg, task).value;
                               && k in o.db.rows && MadeFrom(cfg, task, k, o.db.rows[k])
                               && o.db.rows == db.rows[k := o.db.rows[k]])
  {
  }

  /** The log and the accepted tasks only grow, and the new entries did not save this row. */
  lemma FromLastSaveStable(cfg: Config, s: State, s': State, k: TenantDb.Key, row: TenantDb.Row)
    requires FromLastSave(cfg, s, k, row)
    requires s.accepted <= s'.accepted && s.processed <= s'.processed
    requires forall l :: 0 <= l < |s.processed| ==> s.processed[l].ticket < |s.accepted|
    requires LastSaveAt(cfg, s', |s.processed| - 1, k)
    ensures FromLastSave(cfg, s', k, row)
  {
    hide MadeFrom, DeviceKey;
    var j :| SavedAt(cfg, s, j, k, row) && LastSaveAt(cfg, s, j, k);
    assert SavedAt(cfg, s', j, k, row);
    forall l | j < l < |s'.processed| && 0 <= l && s'.processed[l].saved && s'.processed[l].ticket < |s'.accepted|
      ensures DeviceKey(cfg, s'.accepted[s'.processed[l].ticket].task) != Some(k)
    {
      if l < |s.processed| {
        assert s'.processed[l] == s.processed[l];
      }
    }
    assert LastSaveAt(cfg, s', j, k);
  }

  lemma FinishKeepsProvenance(cfg: Config, s: State, a: Action)
    requires ProvenanceInv(cfg, s) && a.Finish? && Enabled(s, a)
    ensures ProvenanceInv(cfg, Step(cfg, s, a))
  {
    hide Process, MadeFrom, DeviceKey;
    var s' := Step(cfg, s, a);
    var task := s.accepted[s.workers[a.w].ticket].task;
    SavedRowIsMadeFromTask(cfg, s.db, task, a.now, a.fault);
    var n := |s.processed|;
    forall k | k in s'.db.rows ensures FromLastSave(cfg, s', k, s'.db.rows[k]) {
      if s'.processed[n].saved && DeviceKey(cfg, task) == Some(k) {
        assert SavedAt(cfg, s', n, k, s'.db.rows[k]) && LastSaveAt(cfg, s', n, k);
      } else {
        FromLastSaveStable(cfg, s, s', k, s.db.rows[k]);
      }
    }
  }

  lemma OnlyFinishSaves(cfg: Config, s: State, a: Action)
    requires !a.Finish? || !Enabled(s, a)
    ensures var s' := Step(cfg, s, a);
            s'.db.rows == s.db.rows && s'.processed == s.processed && s.accepted <= s'.accepted
  {
    hide Process, OfferStep;
    if a.Offer? && Enabled(s, a) {
      OfferSavesNothing(s, a.h, a.readFails);
    }
  }

  lemma OfferSavesNothing(s: State, h: nat, readFails: bool)
    requires h in s.handlers
    ensures var s' := OfferStep(s, h, readFails);
            s'.db == s.db && s'.processed == s.processed && s.accepted <= s'.accepted
  {
  }

  lemma StepKeepsProvenance(cfg: Config, s: State, a: Action)
    requires ProvenanceInv(cfg, s)
    ensures ProvenanceInv(cfg, Step(cfg, s, a))
  {
    if a.Finish? && Enabled(s, a) {
      FinishKeepsProvenance(cfg, s, a);
    } else {
      OnlyFinishSaves(cfg, s, a);
      hide Step, Enabled, MadeFrom, DeviceKey, SavedAt, FromLastSave;
      var s' := Step(cfg, s, a);
      forall k | k in s'.db.rows ensures FromLastSave(cfg, s', k, s'.db.rows[k]) {
        FromLastSaveStable(cfg, s, s', k, s.db.rows[k]);
      }
    }
  }

  lemma {:induction false} RunKeepsProvenance(cfg: Config, s: State, actions: seq<Action>)
    requires ProvenanceInv(cfg, s)
    ensures ProvenanceInv(cfg, Run(cfg, s, actions))
    decreases |actions|
  {
    hide ProvenanceInv, Step;
    if actions != [] {
      StepKeepsProvenance(cfg, s, actions[0]);
      RunKeepsProvenance(cfg, Step(cfg, s, actions[0]), actions[1..]);
    }
  }

  /** In every state, each device row is the work of one accepted task (columns of two never mix),
      and that is the task whose save of this device was committed last. */
  lemma DeviceRowIsLastSavedTask(cfg: Config, workers: int, bufferSize: int, actions: seq<Action>, k: TenantDb.Key)
    returns (j: nat)
    requires k in Run(cfg, NewService(workers, bufferSize), actions).db.rows
    ensures var s := Run(cfg, NewService(workers, bufferSize), actions);
            && j < |s.processed| && s.processed[j].saved && s.processed[j].ticket < |s.accepted|
            && MadeFrom(cfg, s.accepted[s.processed[j].ticket].task, k, s.db.rows[k])
            && forall l :: j < l < |s.processed| && s.processed[l].saved && s.processed[l].ticket < |s.accepted|
                           ==> DeviceKey(cfg, s.accepted[s.processed[l].ticket].task) != Some(k)
  {
    hide MadeFrom, DeviceKey;
    var s := Run(cfg, NewService(workers, bufferSize), actions);
    RunKeepsProvenance(cfg, NewService(workers, bufferSize), actions);
    assert FromLastSave(cfg, s, k, s.db.rows[k]);
    var i :| SavedAt(cfg, s, i, k, s.db.rows[k]) && LastSaveAt(cfg, s, i, k);
    j := i;
  }

  // ----- shutdown -----

  function Weight(w: Worker): nat {
    match w case Idle => 1 case Busy(_) => 2 case Exited => 0
  }

  function Weights(workers: seq<Worker>): nat {
    if workers == [] then 0 else Weight(workers[0]) + Weights(workers[1..])
  }

  function Measure(s: State): nat {
    Weights(s.workers) + 2 * |s.queue|
  }

  lemma {:induction false} WeightsUpdate(workers: seq<Worker>, w: nat, x: Worker)
    requires w < |workers|
    ensures Weights(workers[w := x]) == Weights(workers) - Weight(workers[w]) + Weight(x)
  {
    if w > 0 {
      WeightsUpdate(workers[1..], w - 1, x);
      assert workers[w := x][1..] == workers[1..][w - 1 := x];
    } else {
      assert workers[w := x][1..] == workers[1..];
    }
  }

  predicate WorkerAction(a: Action) {
    a.Take? || a.Finish? || a.Exit?
  }

  /** How many of the actions let a worker do something. */
  function WorkerSteps(cfg: Config, s: State, actions: seq<Action>): nat
    decreases |actions|
  {
    if actions == [] then 0
    else (if WorkerAction(actions[0]) && Enabled(s, actions[0]) then 1 else 0)
         + WorkerSteps(cfg, Step(cfg, s, actions[0]), actions[1..])
  }

  lemma ClosedStepLowersMeasure(cfg: Config, s: State, a: Action)
    requires ShutdownInv(s) && s.closed
    ensures var s' := Step(cfg, s, a);
            && s'.closed && ShutdownInv(s')
            && Measure(s') <= Measure(s)
            && (WorkerAction(a) && Enabled(s, a) ==> Measure(s') < Measure(s))
  {
    hide Process;
    if Enabled(s, a) {
      match a {
        case Take(w) => WeightsUpdate(s.workers, w, Busy(s.queue[0]));
        case Finish(w, _, _) => WeightsUpdate(s.workers, w, Idle);
        case Exit(w) => WeightsUpdate(s.workers, w, Exited);
        case _ =>
      }
    }
  }

  /** After the channel is closed the workers can act only boundedly often, in any schedule. */
  lemma {:induction false} WorkersRunDown(cfg: Config, s: State, actions: seq<Action>)
    requires ShutdownInv(s) && s.closed
    ensures WorkerSteps(cfg, s, actions) + Measure(Run(cfg, s, actions)) <= Measure(s)
    decreases |actions|
  {
    hide Step, Enabled, ShutdownInv;
    if actions != [] {
      ClosedStepLowersMeasure(cfg, s, actions[0]);
      WorkersRunDown(cfg, Step(cfg, s, actions[0]), actions[1..]);
    }
  }

  predicate AllExited(s: State) {
    forall w :: 0 <= w < |s.workers| ==> s.workers[w].Exited?
  }

  ghost predicate SomeWorkerCanAct(s: State) {
    exists a: Action :: WorkerAction(a) && Enabled(s, a)
  }

  /** And as long as one has not exited, some worker can act: so every worker exits. */
  lemma ClosedPoolIsNeverStuck(s: State)
    requires Inv(s) && s.closed
    ensures SomeWorkerCanAct(s) <==> !AllExited(s)
  {
    hide ReplyInv;
    if !AllExited(s) {
      var w: nat :| w < |s.workers| && !s.workers[w].Exited?;
      if s.workers[w].Busy? {
        assert s.workers[w].ticket in Held(s.workers);
        assert Enabled(s, Finish(w, 0, Repository.NoFault));
      } else {
        assert Enabled(s, Exit(w));
      }
    }
  }

  // ----- what the graceful stop does not promise -----

  /** Once all workers have exited, the accepted tasks that were never processed are exactly those
      still in the channel, and they stay there. */
  lemma {:induction false} LeftInChannelIsNeverProcessed(cfg: Config, s: State, actions: seq<Action>, i: nat)
    requires Inv(s) && s.closed && AllExited(s) && i < |s.accepted|
    ensures Finished(Run(cfg, s, actions), i) <==> i !in s.queue
    decreases |actions|
  {
    hide ReplyInv, Process;
    if actions == [] {
      TicketIsInOnePlace(s, i);
    } else {
      StepKeepsInv(cfg, s, actions[0]);
      var s1 := Step(cfg, s, actions[0]);
      assert s1.queue == s.queue && s1.processed == s.processed && s1.workers == s.workers && s1.closed;
      LeftInChannelIsNeverProcessed(cfg, s1, actions[1..], i);
    }
  }

  /** No handler is left, so nothing more is accepted; workers only take from the channel. */
  lemma {:induction false} NothingMoreAccepted(cfg: Config, s: State, actions: seq<Action>)
    requires s.draining && s.handlers == map[]
    ensures var s' := Run(cfg, s, actions);
            && s'.draining && s'.handlers == map[] && s'.accepted == s.accepted
            && (s.queue == [] ==> s'.queue == [])
    decreases |actions|
  {
    hide Process;
    if actions != [] {
      NothingMoreAccepted(cfg, Step(cfg, s, actions[0]), actions[1..]);
    }
  }

  lemma Unroll(cfg: Config, s: State, a: Action, rest: seq<Action>)
    ensures Run(cfg, s, [a] + rest) == Run(cfg, Step(cfg, s, a), rest)
  {
    assert ([a] + rest)[1..] == rest;
  }

  /** Cancelled workers may finish what they hold and leave the channel alone. */
  lemma {:induction false} WorkersCanJustLeave(cfg: Config, s: State, k: nat) returns (actions: seq<Action>)
    requires Inv(s) && s.cancelled && k <= |s.workers|
    requires forall w :: 0 <= w < k ==> s.workers[w].Exited?
    ensures AllExited(Run(cfg, s, actions)) && Run(cfg, s, actions).queue == s.queue
    decreases |s.workers| - k
  {
    hide ReplyInv, Process;
    actions := [];
    if k < |s.workers| {
      var s1, s2 := s, s;
      if s.workers[k].Busy? {
        assert s.workers[k].ticket in Held(s.workers);
        s1 := Step(cfg, s, Finish(k, 0, Repository.NoFault));
        StepKeepsInv(cfg, s, Finish(k, 0, Repository.NoFault));
      }
      s2 := Step(cfg, s1, Exit(k));
      StepKeepsInv(cfg, s1, Exit(k));
      actions := WorkersCanJustLeave(cfg, s2, k + 1);
      Unroll(cfg, s1, Exit(k), actions);
      actions := [Exit(k)] + actions;
      if s.workers[k].Busy? {
        Unroll(cfg, s, Finish(k, 0, Repository.NoFault), actions);
        actions := [Finish(k, 0, Repository.NoFault)] + actions;
      }
    }
  }

  ghost predicate AllFinished(s: State) {
    forall i: nat :: i < |s.accepted| ==> Finished(s, i)
  }

  /** Once the channel is closed, and the process may end, every accepted task is processed. */
  ghost predicate AllFinishedAtClose(cfg: Config, s: State) {
    forall actions :: Run(cfg, s, actions).closed ==> AllFinished(Run(cfg, s, actions))
  }

  /**
    Exactly when `Close` loses nothing. It cancels, closes and returns without waiting for the
    workers, and the process ends. Where it is called, the handlers have finished; from its close
    on, whatever the workers do, every task answered 202 is processed if and only if at the call
    the channel is empty and no worker holds a task.
   */
  lemma CloseLosesNothingExactlyWhenIdle(cfg: Config, s: State)
    requires Inv(s) && s.draining && s.handlers == map[] && !s.cancelled
    ensures AllFinishedAtClose(cfg, s) <==> s.queue == [] && Held(s.workers) == {}
  {
    hide ReplyInv, Process;
    if s.queue == [] && Held(s.workers) == {} {
      forall actions | Run(cfg, s, actions).closed ensures AllFinished(Run(cfg, s, actions)) {
        IdleStaysFinished(cfg, s, actions);
      }
    } else {
      var actions := [Cancel, CloseChannel];
      var s1 := Step(cfg, s, Cancel);
      assert actions[1..] == [CloseChannel] && actions[1..][1..] == [];
      assert Run(cfg, s1, [CloseChannel]) == Step(cfg, s1, CloseChannel);
      var last := Run(cfg, s, actions);
      assert last.closed && last.queue == s.queue && last.workers == s.workers && last.processed == s.processed;
      var i := UnfinishedTicket(s);
      assert forall k :: ProcessedAt(last, k, i) ==> ProcessedAt(s, k, i);
      assert !Finished(last, i);
    }
  }

  lemma UnfinishedTicket(s: State) returns (i: nat)
    requires Inv(s) && (s.queue != [] || Held(s.workers) != {})
    ensures i < |s.accepted| && !Finished(s, i)
  {
    hide ReplyInv;
    if s.queue != [] {
      i := s.queue[0];
      assert Queued(s, i);
    } else {
      i :| i in Held(s.workers);
      assert i < Taken(s);
    }
    HeldMeaning(s, i);
    TicketIsInOnePlace(s, i);
  }

  lemma IdleStaysFinished(cfg: Config, s: State, actions: seq<Action>)
    requires Inv(s) && s.draining && s.handlers == map[] && s.queue == [] && Held(s.workers) == {}
    ensures AllFinished(Run(cfg, s, actions))
  {
    hide ReplyInv, Process;
    var last := Run(cfg, s, actions);
    RunKeepsInv(cfg, s, actions);
    NothingMoreAccepted(cfg, s, actions);
    forall i: nat | i < |last.accepted| ensures Finished(last, i) {
      HeldMeaning(s, i);
      TicketIsInOnePlace(s, i);
      var k :| ProcessedAt(s, k, i);
      assert ProcessedAt(last, k, i);
    }
  }

  /** Every run in which the workers all exit processes every accepted task first. */
  ghost predicate StopsClean(cfg: Config, s: State) {
    forall actions :: AllExited(Run(cfg, s, actions)) ==> AllFinished(Run(cfg, s, actions))
  }

  /** If the process outlives its workers, it is enough that the channel is empty at the call, and
      no less is. */
  lemma WaitingLosesNothingExactlyWhenChannelEmpty(cfg: Config, s: State)
    requires Inv(s) && s.draining && s.handlers == map[]
    ensures StopsClean(cfg, s) <==> s.queue == []
  {
    hide ReplyInv, Process;
    if s.queue == [] {
      forall actions | AllExited(Run(cfg, s, actions)) ensures AllFinished(Run(cfg, s, actions)) {
        EmptyChannelStopsClean(cfg, s, actions);
      }
    } else {
      var actions := CloseWithoutTaking(cfg, s);
      var last := Run(cfg, s, actions);
      RunKeepsInv(cfg, s, actions);
      NothingMoreAccepted(cfg, s, actions);
      var i := last.queue[0];
      assert Queued(last, i);
      TicketIsInOnePlace(last, i);
      assert !AllFinished(last);
    }
  }

  lemma EmptyChannelStopsClean(cfg: Config, s: State, actions: seq<Action>)
    requires Inv(s) && s.draining && s.handlers == map[] && s.queue == []
    requires AllExited(Run(cfg, s, actions))
    ensures AllFinished(Run(cfg, s, actions))
  {
    var last := Run(cfg, s, actions);
    RunKeepsInv(cfg, s, actions);
    NothingMoreAccepted(cfg, s, actions);
    forall i: nat | i < |last.accepted| ensures Finished(last, i) {
      TicketIsInOnePlace(last, i);
    }
  }

  lemma CloseWithoutTaking(cfg: Config, s: State) returns (actions: seq<Action>)
    requires Inv(s) && s.draining && s.handlers == map[]
    ensures AllExited(Run(cfg, s, actions)) && Run(cfg, s, actions).queue == s.queue
  {
    var s1 := Step(cfg, s, Cancel);
    StepKeepsInv(cfg, s, Cancel);
    var rest := WorkersCanJustLeave(cfg, s1, 0);
    Unroll(cfg, s, Cancel, rest);
    actions := [Cancel] + rest;
  }

  lemma {:induction false} Snoc(cfg: Config, s: State, actions: seq<Action>, a: Action)
    ensures Run(cfg, s, actions + [a]) == Step(cfg, Run(cfg, s, actions), a)
    decreases |actions|
  {
    hide Step;
    if actions == [] {
      assert actions + [a] == [a] && [a][1..] == [];
    } else {
      Snoc(cfg, Step(cfg, s, actions[0]), actions[1..], a);
      assert (actions + [a])[1..] == actions[1..] + [a];
    }
  }

  lemma Extend(cfg: Config, actions: seq<Action>, s: State, a: Action) returns (actions': seq<Action>, s': State)
    requires Run(cfg, NewService(1, 1), actions) == s
    ensures actions' == actions + [a] && s' == Step(cfg, s, a) && Run(cfg, NewService(1, 1), actions') == s'
  {
    Snoc(cfg, NewService(1, 1), actions, a);
    actions', s' := actions + [a], Step(cfg, s, a);
  }

  lemma OneAccepted(cfg: Config) returns (actions: seq<Action>, s: State)
    ensures Run(cfg, NewService(1, 1), actions) == s
    ensures s.queue == [0] && s.workers == [Idle] && s.processed == [] && |s.accepted| == 1 && s.handlers == map[]
    ensures 7 in s.replies && s.replies[7] == ACCEPTED && !s.draining && !s.cancelled && !s.closed
  {
    actions, s := Extend(cfg, [], NewService(1, 1), Receive(7, "tenant", "payload"));
    actions, s := Extend(cfg, actions, s, Offer(7, false));
    assert s.handlers == map[];
  }

  /** A run in which a task answered 202 is lost at shutdown: the only worker sees the cancellation
      first. */
  lemma ShutdownCanLoseAcceptedTask(cfg: Config) returns (actions: seq<Action>)
    ensures var s := Run(cfg, NewService(1, 1), actions);
            s.closed && AllExited(s) && 7 in s.replies && s.replies[7] == ACCEPTED && s.queue == [0] &&
                s.processed == []
  {
    hide Process, OfferStep;
    var s;
    actions, s := OneAccepted(cfg);
    actions, s := Extend(cfg, actions, s, Shutdown);
    actions, s := Extend(cfg, actions, s, Cancel);
    actions, s := Extend(cfg, actions, s, Exit(0));
    actions, s := Extend(cfg, actions, s, CloseChannel);
  }
}
