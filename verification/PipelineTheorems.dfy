/** End-to-end conservation, and what the pipeline does not promise. */
module PipelineTheorems {
  import OfflineQueue
  import Agent = FlushSystem
  import FlushTheorems
  import TenantDb
  import Service = Ingestion
  import IngestionTheorems
  import opened Pipeline

  /** The service has the task: in its channel, with a worker, or processed (persisted or rejected). */
  ghost predicate InService(s: State, i: nat) {
    && i < |s.service.accepted|
    && (IngestionTheorems.Queued(s.service, i) || IngestionTheorems.InProgress(s.service, i) ||
        IngestionTheorems.Finished(s.service, i))
  }

  ghost predicate InQueue(s: State, id: int, payload: string) {
    exists row :: row in s.agent.table.rows && row.id == id && row.payload == payload
  }

  /** Acknowledgement k is for this row, and its ticket is a task with this payload in the service. */
  ghost predicate AcknowledgedInService(setup: Setup, s: State, k: nat, id: int, payload: string) {
    && k < |s.agent.acks| && k < |s.ackTickets|
    && s.agent.acks[k].id == id
    && IsTask(s.service.accepted, s.ackTickets[k], setup.tenant, payload)
    && InService(s, s.ackTickets[k])
  }

  lemma TicketInService(s: State, i: nat)
    requires Service.Inv(s.service) && i < |s.service.accepted|
    ensures InService(s, i)
  {
    IngestionTheorems.TicketIsInOnePlace(s.service, i);
  }

  lemma StoredOnce(history: seq<OfflineQueue.Row>, id: int, p: string, q: string)
    requires OfflineQueue.Ascending(history) && Agent.StoredAs(history, id, p) && Agent.StoredAs(history, id, q)
    ensures p == q
  {
    var i :| 0 <= i < |history| && history[i].id == id && history[i].payload == p;
    var j :| 0 <= j < |history| && history[j].id == id && history[j].payload == q;
    assert i == j;
  }

  /** A row that was stored is in the queue, or its acknowledgement is backed by a task in the service. */
  lemma CachedIsConserved(setup: Setup, s: State, id: int, p: string)
    requires Inv(setup, s) && Agent.StoredAs(s.agent.history, id, p)
    ensures InQueue(s, id, p) || exists k :: AcknowledgedInService(setup, s, k, id, p)
  {
    hide Agent.AckInv, Agent.AckedUpTo, Agent.ThreadsOk, PendingInv, DistinctInv, Service.Inv;
    var i :| 0 <= i < |s.agent.history| && s.agent.history[i].id == id && s.agent.history[i].payload == p;
    var row := s.agent.history[i];
    FlushTheorems.QueuedOrAcknowledged(s.agent, row);
    if row in s.agent.table.rows {
      assert InQueue(s, id, p);
    } else {
      var k :| 0 <= k < |s.agent.acks| && s.agent.acks[k].id == id;
      assert AckReceipt(setup, s, k);
      StoredOnce(s.agent.history, id, p, s.service.accepted[s.ackTickets[k]].task.payload);
      TicketInService(s, s.ackTickets[k]);
      assert AcknowledgedInService(setup, s, k, id, p);
    }
  }

  /** Where a call that was given this body stands. */
  ghost predicate AccountedFor(setup: Setup, s: State, t: nat, body: string) {
    && t in s.agent.threads
    && match s.agent.threads[t]
       case Sending(p) => p == body
       case Caching(p) => p == body
       case Dropped(p) => p == body
       case Delivered(p) =>
         && p == body
         && t in s.direct && IsTask(s.service.accepted, s.direct[t], setup.tenant, body) && InService(s, s.direct[t])
       case Cached(p, id) =>
         && p == body
         && (InQueue(s, id, body) || exists k :: AcknowledgedInService(setup, s, k, id, body))
       case _ => false
  }

  lemma TransmitIsAccountedFor(setup: Setup, s: State, t: nat)
    requires Inv(setup, s) && t in s.agent.threads && FlushTheorems.Transmitting(s.agent.threads[t])
    ensures AccountedFor(setup, s, t, s.agent.threads[t].payload)
  {
    hide Agent.QueueInv, Agent.AckInv, Agent.AckedUpTo, PendingInv, DistinctInv, Service.Inv, InService;
    hide InQueue, AckReceipt;
    var th := s.agent.threads[t];
    if th.Delivered? {
      TicketInService(s, s.direct[t]);
    } else if th.Cached? {
      assert Agent.ThreadOk(s.agent.history, Agent.Acked(s.agent.acks), Agent.Released(s.agent), th);
      CachedIsConserved(setup, s, th.id, th.payload);
    }
  }

  /**
    In every run, for every payload given to `Transmit`: the call is still under way with it, or the
    store refused it, or it is in the offline queue, or the service has it. Which calls end as
    delivered or dropped is exact, because the agent's part of a run is a run of the agent.
   */
  lemma EveryPayloadIsSomewhere(setup: Setup, before: seq<Action>, t: nat, body: string, after: seq<Action>)
    requires t !in Run(setup, Initial(setup), before).agent.threads
    ensures var start := AgentStep(Agent.StartTransmit(t, body));
            var s := Run(setup, Initial(setup), before + ([start] + after));
            AccountedFor(setup, s, t, body)
  {
    hide Inv, AccountedFor;
    var s0 := Run(setup, Initial(setup), before);
    var start := AgentStep(Agent.StartTransmit(t, body));
    var actions := [start] + after;
    RunConcat(setup, Initial(setup), before, actions);
    InitialInv(setup);
    RunKeepsInv(setup, Initial(setup), before);
    RunKeepsInv(setup, s0, actions);
    assert actions[1..] == after;
    var s1 := Step(setup, s0, start);
    AgentSeesARun(setup, s1, after);
    FlushTheorems.TransmitKeepsPayload(s1.agent, AgentRun(setup, s1, after), t);
    TransmitIsAccountedFor(setup, Run(setup, s0, actions), t);
  }

  /** In the joint system, too, a call is delivered or dropped exactly for the reason it should be. */
  lemma OutcomesAreExact(setup: Setup, s: State, actions: seq<Action>, t: nat)
    requires t in s.agent.threads && (s.agent.threads[t].Sending? || s.agent.threads[t].Caching?)
    ensures var s', local := Run(setup, s, actions), AgentRun(setup, s, actions);
            && t in s'.agent.threads
            && (s'.agent.threads[t].Delivered? <==> FlushTheorems.Accepted(s.agent, local, t))
            && (s'.agent.threads[t].Dropped? <==> FlushTheorems.Refused(s.agent, local, t))
  {
    AgentSeesARun(setup, s, actions);
    FlushTheorems.TransmitOutcomeHasReason(s.agent, AgentRun(setup, s, actions), t);
  }

  /** Nothing is counted twice: every 2xx the agent received stands for its own task in the service,
      and that task has the payload the 2xx was for. */
  lemma EveryReceiptHasItsOwnTask(setup: Setup, actions: seq<Action>)
    ensures var s := Run(setup, Initial(setup), actions);
            && |s.ackTickets| == |s.agent.acks|
            && (forall j, k :: 0 <= j < k < |s.ackTickets| ==> s.ackTickets[j] != s.ackTickets[k])
            && (forall k, t :: 0 <= k < |s.ackTickets| && t in s.direct ==> s.ackTickets[k] != s.direct[t])
            && (forall t, u :: t in s.direct && u in s.direct && t != u ==> s.direct[t] != s.direct[u])
            && (forall k :: 0 <= k < |s.ackTickets| ==>
                  InService(s, s.ackTickets[k]) && AckReceipt(setup, s, k))
            && (forall t :: t in s.direct ==>
                  && InService(s, s.direct[t])
                  && t in s.agent.threads && s.agent.threads[t].Delivered?
                  && IsTask(s.service.accepted, s.direct[t], setup.tenant, s.agent.threads[t].payload))
  {
    hide Agent.Inv, PendingInv, Service.Inv, InService;
    var s := Run(setup, Initial(setup), actions);
    InitialInv(setup);
    RunKeepsInv(setup, Initial(setup), actions);
    forall k | 0 <= k < |s.ackTickets| ensures InService(s, s.ackTickets[k]) && AckReceipt(setup, s, k) {
      assert AckReceipt(setup, s, k);
      TicketInService(s, s.ackTickets[k]);
    }
    forall t | t in s.direct ensures InService(s, s.direct[t]) {
      TicketInService(s, s.direct[t]);
    }
  }

  /** In every joint run a device row is the work of the one task whose save of it committed last. */
  lemma DeviceRowIsLastSavedTask(setup: Setup, actions: seq<Action>, k: TenantDb.Key) returns (j: nat)
    requires k in Run(setup, Initial(setup), actions).service.db.rows
    ensures var s := Run(setup, Initial(setup), actions).service;
            && IngestionTheorems.FromLastSave(setup.cfg, s, k, s.db.rows[k])
            && IngestionTheorems.SavedAt(setup.cfg, s, j, k, s.db.rows[k])
            && IngestionTheorems.LastSaveAt(setup.cfg, s, j, k)
  {
    hide IngestionTheorems.MadeFrom, IngestionTheorems.DeviceKey;
    var start := Service.NewService(setup.workers, setup.bufferSize);
    ServiceSeesARun(setup, Initial(setup), actions);
    var remote := ServiceRun(setup, Initial(setup), actions);
    IngestionTheorems.RunKeepsProvenance(setup.cfg, start, remote);
    j := IngestionTheorems.DeviceRowIsLastSavedTask(setup.cfg, setup.workers, setup.bufferSize, remote, k);
  }
}
