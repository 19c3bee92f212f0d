/** A lost answer alone makes the service get a payload twice: the task is accepted, the 202 does
    not arrive, the agent caches the payload and flushes it later. */
module LostAnswer {
  import OfflineQueue
  import Agent = FlushSystem
  import Service = Ingestion
  import opened Pipeline
  import opened StaleReplay
  import opened DeliveryTheorems

  /** A service that stores nothing yet and knows the tenant. */
  lemma Started() returns (actions: seq<Action>, s: State)
    ensures Leads(actions, s) && Quiet(s.service) && s.service.accepted == [] && s.service.replies == map[]
    ensures s == Initial(SETUP).(service := s.service)
  {
    actions, s := Extend([], Initial(SETUP), ServiceStep(Service.RegisterTenant(ME, "name")));
  }

  /** The service accepted the payload and the agent does not know. */
  lemma AnswerLost() returns (actions: seq<Action>, s: State)
    ensures Leads(actions, s) && Quiet(s.service) && s.pending == map[] && s.service.replies.Keys == {10}
    ensures s.service.accepted == [Service.Accepted(Service.Task("tenant", "p"), 10)]
    ensures s.sent == map[10 := OfCall(0)] && s.abandoned == {10} && s.ackTickets == [] && s.direct == map[]
    ensures s.agent.threads == map[0 := Agent.Caching("p")]
    ensures s.agent == Agent.INITIAL.(threads := s.agent.threads)
  {
    actions, s := Started();
    var quiet := s.service;
    actions, s := Extend(actions, s, AgentStep(Agent.StartTransmit(0, "p")));
    actions, s := Extend(actions, s, Send(0, 10));
    actions, s := Extend(actions, s, ServiceStep(Service.Offer(10, false)));
    assert s.service.handlers == map[];
    actions, s := Extend(actions, s, Fail(0, Agent.NoReply));
    hide Quiet;
    actions, s := Persisted(actions, s, quiet, "p");
  }

  /** One acknowledgement, no overlap, no cancellation, no failed delete, and two tasks. */
  lemma LostAnswerAloneRepeats() returns (actions: seq<Action>)
    ensures var s := Run(SETUP, Initial(SETUP), actions);
            && Orderly(s) && |s.agent.acks| == 1
            && 0 in s.agent.threads && s.agent.threads[0] == Agent.Cached("p", 1)
            && TasksOf(s, 0) == {0, 1} && GivenUpOn(s, 0) == {10}
  {
    hide Quiet, Service.Step, AnswerStep;
    var s;
    actions, s := AnswerLost();
    actions, s := Extend(actions, s, AgentStep(Agent.Cache(0, 0, false)));
    actions, s := Extend(actions, s, AgentStep(Agent.StartFlush(1, OfflineQueue.StopsAfter(1))));
    assert s.agent.threads[1] == Agent.Posting(0, [OfflineQueue.Row(1, "p", 0)], []);
    var before := s;
    actions, s := Delivered(actions, s, 1, 11, "p");
  }
}
