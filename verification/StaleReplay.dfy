/**
  The database does not have to hold the newest payload collected: a new payload is sent at once
  while older ones wait in the offline queue, and the last one processed wins.
 */
module StaleReplay {
  import opened Wrappers
  import OfflineQueue
  import Agent = FlushSystem
  import TenantDb
  import Repository
  import Service = Ingestion
  import opened Pipeline

  const ME := TenantDb.Uuid(1)
  const DEVICE := TenantDb.Key(TenantDb.Devices, ME)
  const CAST: TenantDb.Cast := (text: string) => if text == "" then None else Some(ME)
  const DECODE: string -> Option<Service.Metadata> := payload => Some(Service.Metadata("device", "host"))
  const SETUP := Setup(Service.Config(DECODE, CAST, true), "tenant", 1, 1)

  ghost predicate Leads(actions: seq<Action>, s: State) {
    Run(SETUP, Initial(SETUP), actions) == s
  }

  lemma {:induction false} Snoc(s: State, actions: seq<Action>, a: Action)
    ensures Run(SETUP, s, actions + [a]) == Step(SETUP, Run(SETUP, s, actions), a)
    decreases |actions|
  {
    hide Step;
    if actions == [] {
      assert actions + [a] == [a] && [a][1..] == [];
    } else {
      Snoc(Step(SETUP, s, actions[0]), actions[1..], a);
      assert (actions + [a])[1..] == actions[1..] + [a];
    }
  }

  lemma Extend(actions: seq<Action>, s: State, a: Action) returns (actions': seq<Action>, s': State)
    requires Leads(actions, s)
    ensures actions' == actions + [a] && s' == Step(SETUP, s, a) && Leads(actions', s')
  {
    Snoc(Initial(SETUP), actions, a);
    actions', s' := actions + [a], Step(SETUP, s, a);
  }

  /** The one worker is idle, the channel is empty, and every stored row is the tenant's. */
  ghost predicate Quiet(service: Service.State) {
    && service.workers == [Service.Idle] && service.queue == [] && service.handlers == map[] && service.capacity == 1
    && !service.draining && !service.cancelled && !service.closed
    && ME in service.db.tenants
    && forall k :: k in service.db.rows ==> service.db.rows[k].tenant == ME && k == DEVICE
  }

  /** A request that is accepted and answered. */
  lemma Delivered(before: seq<Action>, s: State, t: nat, h: nat, p: string) returns (actions: seq<Action>, s': State)
    requires Leads(before, s) && Quiet(s.service) && s.pending == map[] && p != ""
    requires Body(s.agent, t) == Some(p) && h !in s.service.replies
    ensures Leads(actions, s')
    ensures s'.agent == ReplyTo(s.agent, t, Agent.Status(Service.ACCEPTED)) && s'.pending == map[]
    ensures s'.sent == s.sent[h := OriginOf(s.agent, t)] && s'.abandoned == s.abandoned
    ensures s'.service == s.service.(replies := s.service.replies[h := Service.ACCEPTED],
                                     queue := [|s.service.accepted|],
                                     accepted := s.service.accepted + [Service.Accepted(Service.Task("tenant", p), h)])
  {
    hide ReplyTo, TicketOf;
    actions, s' := Extend(before, s, Send(t, h));
    actions, s' := Extend(actions, s', ServiceStep(Service.Offer(h, false)));
    assert s'.service.handlers == map[];
    actions, s' := Extend(actions, s', Answer(t));
    assert s'.pending == map[];
  }

  /** The worker takes the one queued task and persists it. */
  lemma Persisted(before: seq<Action>, s: State, quiet: Service.State, p: string)
      returns (actions: seq<Action>, s': State)
    requires Leads(before, s) && Quiet(quiet) && |s.service.accepted| > 0
    requires s.service == quiet.(queue := s.service.queue, accepted := s.service.accepted, replies := s.service.replies)
    requires var i: nat := |s.service.accepted| - 1;
             s.service.queue == [i] && s.service.accepted[i].task == Service.Task("tenant", p)
    ensures Leads(actions, s') && s' == s.(service := s'.service)
    ensures Quiet(s'.service) && s'.service.accepted == s.service.accepted && s'.service.replies == s.service.replies
    ensures s'.service.processed == s.service.processed +
        [Service.Processed(|s.service.accepted| - 1, Service.Persisted, true)]
    ensures DEVICE in s'.service.db.rows
    ensures s'.service.db.rows[DEVICE] == TenantDb.Row(ME, TenantDb.DeviceColumns("host", p, 0))
  {
    actions, s' := Extend(before, s, ServiceStep(Service.Take(0)));
    actions, s' := Extend(actions, s', ServiceStep(Service.Finish(0, 0, Repository.NoFault)));
  }

  lemma OldCached() returns (actions: seq<Action>, s: State)
    ensures Leads(actions, s) && Quiet(s.service) && s.service.accepted == [] && s.service.processed == []
    ensures s.pending == map[] && s.service.replies == map[]
    ensures s.agent == Agent.State(OfflineQueue.Table([OfflineQueue.Row(1, "old", 0)], 2),
        map[0 := Agent.Cached("old", 1)],
                                   [OfflineQueue.Row(1, "old", 0)], [], {})
  {
    actions, s := Extend([], Initial(SETUP), ServiceStep(Service.RegisterTenant(ME, "name")));
    assert Quiet(s.service);
    actions, s := Extend(actions, s, AgentStep(Agent.StartTransmit(0, "old")));
    actions, s := Extend(actions, s, Fail(0, Agent.NoReply));
    actions, s := Extend(actions, s, AgentStep(Agent.Cache(0, 0, false)));
    assert s.agent.threads == map[0 := Agent.Cached("old", 1)];
    assert s.pending == map[];
  }

  lemma NewDelivered() returns (actions: seq<Action>, s: State)
    ensures Leads(actions, s) && Quiet(s.service) && s.pending == map[]
    ensures s.service.replies.Keys == {10} && |s.service.accepted| == 1
    ensures s.service.accepted[0].task == Service.Task("tenant", "new")
    ensures s.service.processed == [Service.Processed(0, Service.Persisted, true)]
    ensures s.agent.table.rows == [OfflineQueue.Row(1, "old", 0)] && |s.agent.history| == 1
    ensures s.agent.threads == map[0 := Agent.Cached("old", 1), 1 := Agent.Delivered("new")]
  {
    hide Quiet;
    actions, s := OldCached();
    actions, s := Extend(actions, s, AgentStep(Agent.StartTransmit(1, "new")));
    var quiet := s.service;
    actions, s := Delivered(actions, s, 1, 10, "new");
    actions, s := Persisted(actions, s, quiet, "new");
  }

  /** Both payloads were persisted, "new" was collected after "old", and the row holds "old". */
  lemma OlderPayloadCanWin() returns (actions: seq<Action>)
    ensures var s := Run(SETUP, Initial(SETUP), actions);
            && 0 in s.agent.threads && s.agent.threads[0] == Agent.Cached("old", 1)
            && 1 in s.agent.threads && s.agent.threads[1] == Agent.Delivered("new")
            && |s.service.accepted| == 2
            && s.service.accepted[0].task.payload == "new" && s.service.accepted[1].task.payload == "old"
            && s.service.processed
               == [Service.Processed(0, Service.Persisted, true), Service.Processed(1, Service.Persisted, true)]
            && DEVICE in s.service.db.rows
            && s.service.db.rows[DEVICE].columns == TenantDb.DeviceColumns("host", "old", 0)
  {
    hide Quiet, Service.Step, AnswerStep, OriginOf;
    var s;
    actions, s := NewDelivered();
    actions, s := Extend(actions, s, AgentStep(Agent.StartFlush(2, OfflineQueue.StopsAfter(1))));
    assert s.agent.threads[2] == Agent.Posting(0, [OfflineQueue.Row(1, "old", 0)], []);
    var quiet := s.service;
    actions, s := Delivered(actions, s, 2, 11, "old");
    actions, s := Persisted(actions, s, quiet, "old");
  }
}
