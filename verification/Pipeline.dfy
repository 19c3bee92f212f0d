/**
  End to end: the agent's calls and the ingestion service, joined by a network that can delay or
  lose requests and replies. A reply may be lost after the service accepted the task, the service
  has other clients, and everything interleaves.
 */
module Pipeline {
  import opened Wrappers
  import Agent = FlushSystem
  import FlushTheorems
  import Service = Ingestion

  /** What a request was made for: the payload a call was given, or a cached row a flush posts. */
  datatype Origin = OfCall(call: nat) | OfRow(id: int, flush: nat)

  /** `pending` maps a call to the request it is waiting for. The tickets behind the 2xx replies
      received are kept: one per acknowledgement of a cached row, and one per direct delivery.
      `sent` has every request ever made, and `abandoned` those whose answer was not received. */
  datatype State = State(
    agent: Agent.State,
    service: Service.State,
    pending: map<nat, nat>,
    ackTickets: seq<nat>,
    direct: map<nat, nat>,
    sent: map<nat, Origin>,
    abandoned: set<nat>)

  datatype Setup = Setup(cfg: Service.Config, tenant: string, workers: int, bufferSize: int)

  function Initial(setup: Setup): State {
    State(Agent.INITIAL, Service.NewService(setup.workers, setup.bufferSize), map[], [], map[], map[], {})
  }

  datatype Action =
    | AgentStep(local: Agent.Action)
    | Send(t: nat, h: nat)
    | ServiceStep(remote: Service.Action)
    | Answer(t: nat)
    | Fail(t: nat, reply: Agent.Reply)

  /** The body of the request a call is about to make or waiting for. */
  function Body(agent: Agent.State, t: nat): Option<string> {
    if t !in agent.threads then None else
    match agent.threads[t]
    case Sending(p) => Some(p)
    case Posting(_, snapshot, flushed) => if |flushed| < |snapshot| then Some(snapshot[|flushed|].payload) else None
    case _ => None
  }

  function OriginOf(agent: Agent.State, t: nat): Origin
    requires Body(agent, t).Some?
  {
    match agent.threads[t]
    case Posting(_, snapshot, flushed) => OfRow(snapshot[|flushed|].id, t)
    case _ => OfCall(t)
  }

  /** What the agent does without the network; a flush looks at its context only between requests. */
  predicate Local(s: State, a: Agent.Action) {
    !a.TransmitReply? && !a.FlushReply? && (a.CancelFlush? ==> a.t !in s.pending)
  }

  predicate Enabled(s: State, a: Action) {
    match a
    case AgentStep(local) => Local(s, local)
    case Send(t, h) => Body(s.agent, t).Some? && t !in s.pending &&
        Service.Enabled(s.service, Service.Receive(h, "", ""))
    case ServiceStep(_) => true
    case Answer(t) => t in s.pending && s.pending[t] in s.service.replies
    case Fail(t, reply) => Body(s.agent, t).Some? && !Agent.Acknowledges(reply)
  }

  function ReplyTo(agent: Agent.State, t: nat, reply: Agent.Reply): Agent.State {
    if t in agent.threads && agent.threads[t].Sending? then Agent.Step(agent, Agent.TransmitReply(t, reply))
    else Agent.Step(agent, Agent.FlushReply(t, reply))
  }

  /** The ticket of the task that a request enqueued. */
  function TicketOf(accepted: seq<Service.Accepted>, h: nat): nat {
    if accepted == [] || accepted[0].handler == h then 0 else 1 + TicketOf(accepted[1..], h)
  }

  function AnswerStep(s: State, t: nat): State
    requires t in s.pending && s.pending[t] in s.service.replies
  {
    var h := s.pending[t];
    var reply := Agent.Status(s.service.replies[h]);
    var ticket := TicketOf(s.service.accepted, h);
    var agent := ReplyTo(s.agent, t, reply);
    var s1 := s.(agent := agent, pending := s.pending - {t});
    if !Agent.Acknowledges(reply) then s1
    else if t in s.agent.threads && s.agent.threads[t].Sending? then s1.(direct := s.direct[t := ticket])
    else s1.(ackTickets := s.ackTickets + [ticket])
  }

  function Step(setup: Setup, s: State, a: Action): State {
    if !Enabled(s, a) then s else
    match a
    case AgentStep(local) => s.(agent := Agent.Step(s.agent, local))
    case Send(t, h) =>
      s.(service := Service.Step(setup.cfg, s.service, Service.Receive(h, setup.tenant, Body(s.agent, t).value)),
         pending := s.pending[t := h],
         sent := s.sent[h := OriginOf(s.agent, t)])
    case ServiceStep(remote) => s.(service := Service.Step(setup.cfg, s.service, remote))
    case Answer(t) => AnswerStep(s, t)
    case Fail(t, reply) =>
      s.(agent := ReplyTo(s.agent, t, reply),
         pending := s.pending - {t},
         abandoned := s.abandoned + (if t in s.pending then {s.pending[t]} else {}))
  }

  function Run(setup: Setup, s: State, actions: seq<Action>): State
    decreases |actions|
  {
    if actions == [] then s else Run(setup, Step(setup, s, actions[0]), actions[1..])
  }

  // ----- each side sees a run of its own -----

  /** What one joint step is to the agent: at most one action. */
  function AgentPart(s: State, a: Action): seq<Agent.Action> {
    if !Enabled(s, a) then [] else
    match a
    case AgentStep(local) => [local]
    case Answer(t) => [ReplyAction(s.agent, t, Agent.Status(s.service.replies[s.pending[t]]))]
    case Fail(t, reply) => [ReplyAction(s.agent, t, reply)]
    case _ => []
  }

  function ReplyAction(agent: Agent.State, t: nat, reply: Agent.Reply): Agent.Action {
    if t in agent.threads && agent.threads[t].Sending? then Agent.TransmitReply(t, reply)
    else Agent.FlushReply(t, reply)
  }

  function AgentRun(setup: Setup, s: State, actions: seq<Action>): seq<Agent.Action>
    decreases |actions|
  {
    if actions == [] then [] else AgentPart(s, actions[0]) + AgentRun(setup, Step(setup, s, actions[0]), actions[1..])
  }

  /** And what it is to the service. */
  function ServicePart(setup: Setup, s: State, a: Action): seq<Service.Action> {
    if !Enabled(s, a) then [] else
    match a
    case Send(t, h) => [Service.Receive(h, setup.tenant, Body(s.agent, t).value)]
    case ServiceStep(remote) => [remote]
    case _ => []
  }

  function ServiceRun(setup: Setup, s: State, actions: seq<Action>): seq<Service.Action>
    decreases |actions|
  {
    if actions == [] then []
    else ServicePart(setup, s, actions[0]) + ServiceRun(setup, Step(setup, s, actions[0]), actions[1..])
  }

  lemma AgentPartIsStep(setup: Setup, s: State, a: Action)
    ensures Step(setup, s, a).agent == Agent.Run(s.agent, AgentPart(s, a))
  {
    var part := AgentPart(s, a);
    assert |part| == 1 ==> part[1..] == [];
  }

  lemma {:induction false} AgentSeesARun(setup: Setup, s: State, actions: seq<Action>)
    ensures Run(setup, s, actions).agent == Agent.Run(s.agent, AgentRun(setup, s, actions))
    decreases |actions|
  {
    hide Step, AgentPart;
    if actions != [] {
      var s1 := Step(setup, s, actions[0]);
      AgentPartIsStep(setup, s, actions[0]);
      AgentSeesARun(setup, s1, actions[1..]);
      FlushTheorems.RunConcat(s.agent, AgentPart(s, actions[0]), AgentRun(setup, s1, actions[1..]));
    }
  }

  lemma ServicePartIsStep(setup: Setup, s: State, a: Action)
    ensures Step(setup, s, a).service == Service.Run(setup.cfg, s.service, ServicePart(setup, s, a))
  {
    hide Service.Step;
    var part := ServicePart(setup, s, a);
    assert |part| == 1 ==> part[1..] == [];
  }

  lemma {:induction false} ServiceConcat(cfg: Service.Config, s: Service.State, a: seq<Service.Action>,
                                          b: seq<Service.Action>)
    ensures Service.Run(cfg, s, a + b) == Service.Run(cfg, Service.Run(cfg, s, a), b)
    decreases |a|
  {
    hide Service.Step;
    if a == [] {
      assert a + b == b;
    } else {
      assert (a + b)[0] == a[0] && (a + b)[1..] == a[1..] + b;
      ServiceConcat(cfg, Service.Step(cfg, s, a[0]), a[1..], b);
    }
  }

  lemma {:induction false} ServiceSeesARun(setup: Setup, s: State, actions: seq<Action>)
    ensures Run(setup, s, actions).service == Service.Run(setup.cfg, s.service, ServiceRun(setup, s, actions))
    decreases |actions|
  {
    hide Step, ServicePart;
    if actions != [] {
      var s1 := Step(setup, s, actions[0]);
      ServicePartIsStep(setup, s, actions[0]);
      ServiceSeesARun(setup, s1, actions[1..]);
      ServiceConcat(setup.cfg, s.service, ServicePart(setup, s, actions[0]), ServiceRun(setup, s1, actions[1..]));
    }
  }

  lemma {:induction false} RunConcat(setup: Setup, s: State, a: seq<Action>, b: seq<Action>)
    ensures Run(setup, s, a + b) == Run(setup, Run(setup, s, a), b)
    decreases |a|
  {
    hide Step;
    if a == [] {
      assert a + b == b;
    } else {
      assert (a + b)[0] == a[0] && (a + b)[1..] == a[1..] + b;
      RunConcat(setup, Step(setup, s, a[0]), a[1..], b);
    }
  }

  // ----- the invariant -----

  ghost predicate AcceptedAs(accepted: seq<Service.Accepted>, h: nat, task: Service.Task) {
    exists i :: 0 <= i < |accepted| && accepted[i] == Service.Accepted(task, h)
  }

  /** The service knows the request with this body: it is being handled, or it was answered, and
      if with 202, then the task it enqueued is the tenant's, with this body. */
  ghost predicate Requested(service: Service.State, h: nat, tenant: string, body: string) {
    || (h in service.handlers && service.handlers[h] == Service.Handler(tenant, body))
    || (h in service.replies
        && (service.replies[h] == Service.ACCEPTED ==> AcceptedAs(service.accepted, h, Service.Task(tenant, body))))
  }

  ghost predicate PendingInv(setup: Setup, s: State) {
    && (forall t :: t in s.pending ==>
          Body(s.agent, t).Some? && Requested(s.service, s.pending[t], setup.tenant, Body(s.agent, t).value))
    && (forall t, u :: t in s.pending && u in s.pending && t != u ==> s.pending[t] != s.pending[u])
  }

  /** Ticket i is a task of the tenant with this payload. */
  predicate IsTask(accepted: seq<Service.Accepted>, i: nat, tenant: string, payload: string) {
    i < |accepted| && accepted[i].task == Service.Task(tenant, payload)
  }

  ghost predicate AckReceipt(setup: Setup, s: State, k: int)
    requires 0 <= k < |s.ackTickets| && |s.ackTickets| == |s.agent.acks|
  {
    && s.ackTickets[k] < |s.service.accepted|
    && var task := s.service.accepted[s.ackTickets[k]].task;
       task.tenant == setup.tenant && Agent.StoredAs(s.agent.history, s.agent.acks[k].id, task.payload)
  }

  ghost predicate ReceiptInv(setup: Setup, s: State) {
    && |s.ackTickets| == |s.agent.acks|
    && (forall k :: 0 <= k < |s.ackTickets| ==> AckReceipt(setup, s, k))
    && (forall t :: t in s.direct <==> t in s.agent.threads && s.agent.threads[t].Delivered?)
    && (forall t :: t in s.direct && t in s.agent.threads && s.agent.threads[t].Delivered? ==>
          IsTask(s.service.accepted, s.direct[t], setup.tenant, s.agent.threads[t].payload))
  }

  /** Ticket i answers no request that is still pending. */
  predicate Consumed(s: State, i: nat) {
    i < |s.service.accepted| && forall t :: t in s.pending ==> s.pending[t] != s.service.accepted[i].handler
  }

  /** Every 2xx the agent received stands for a task of its own. */
  ghost predicate DistinctInv(s: State) {
    && (forall k :: 0 <= k < |s.ackTickets| ==> Consumed(s, s.ackTickets[k]))
    && (forall t :: t in s.direct ==> Consumed(s, s.direct[t]))
    && (forall j, k :: 0 <= j < k < |s.ackTickets| ==> s.ackTickets[j] != s.ackTickets[k])
    && (forall k, t :: 0 <= k < |s.ackTickets| && t in s.direct ==> s.ackTickets[k] != s.direct[t])
    && (forall t, u :: t in s.direct && u in s.direct && t != u ==> s.direct[t] != s.direct[u])
  }

  ghost predicate Inv(setup: Setup, s: State) {
    && Agent.Inv(s.agent)
    && Service.Inv(s.service)
    && PendingInv(setup, s)
    && ReceiptInv(setup, s)
    && DistinctInv(s)
  }

  // ----- agent steps -----

  lemma LocalKeepsBodies(s: State, a: Agent.Action, t: nat)
    requires Local(s, a) && t in s.pending && Body(s.agent, t).Some?
    ensures Body(Agent.Step(s.agent, a), t) == Body(s.agent, t)
  {
  }

  lemma LocalKeepsOutcomes(s: State, a: Agent.Action)
    requires Local(s, a)
    ensures var agent := Agent.Step(s.agent, a);
            && agent.acks == s.agent.acks
            && (forall t :: t in agent.threads && agent.threads[t].Delivered? <==>
                t in s.agent.threads && s.agent.threads[t].Delivered?)
            && (forall t :: t in s.agent.threads && s.agent.threads[t].Delivered? ==>
                agent.threads[t] == s.agent.threads[t])
  {
  }

  lemma ReceiptsStable(setup: Setup, s: State, s': State)
    requires ReceiptInv(setup, s)
    requires s'.ackTickets == s.ackTickets && s'.direct == s.direct && s'.agent.acks == s.agent.acks
    requires s.agent.history <= s'.agent.history && s.service.accepted <= s'.service.accepted
    requires forall t :: t in s'.agent.threads && s'.agent.threads[t].Delivered? <==>
        t in s.agent.threads && s.agent.threads[t].Delivered?
    requires forall t :: t in s.agent.threads && s.agent.threads[t].Delivered? ==>
        s'.agent.threads[t] == s.agent.threads[t]
    ensures ReceiptInv(setup, s')
  {
    forall k | 0 <= k < |s'.ackTickets| ensures AckReceipt(setup, s', k) {
      assert AckReceipt(setup, s, k);
      var task := s.service.accepted[s.ackTickets[k]].task;
      assert s'.service.accepted[s.ackTickets[k]].task == task;
      Agent.StoredAsStable(s.agent.history, s'.agent.history, s.agent.acks[k].id, task.payload);
    }
  }

  lemma DistinctStable(s: State, s': State)
    requires DistinctInv(s)
    requires s'.ackTickets == s.ackTickets && s'.direct == s.direct && s.service.accepted <= s'.service.accepted
    requires forall t :: t in s'.pending ==> (t in s.pending && s'.pending[t] == s.pending[t])
                                             || (forall i :: 0 <= i < |s.service.accepted| ==>
                                                 s.service.accepted[i].handler != s'.pending[t])
    ensures DistinctInv(s')
  {
    forall i: nat | Consumed(s, i) ensures Consumed(s', i) {
      assert s'.service.accepted[i] == s.service.accepted[i];
    }
  }

  lemma AgentStepKeepsInv(setup: Setup, s: State, local: Agent.Action)
    requires Inv(setup, s) && Local(s, local)
    ensures Inv(setup, Step(setup, s, AgentStep(local)))
  {
    hide Agent.Inv, Agent.Step, Service.Inv, Requested, ReceiptInv, DistinctInv;
    var s' := Step(setup, s, AgentStep(local));
    Agent.StepKeepsInv(s.agent, local);
    LocalKeepsOutcomes(s, local);
    ReceiptsStable(setup, s, s');
    DistinctStable(s, s');
    forall t | t in s'.pending
      ensures Body(s'.agent, t).Some? && Requested(s'.service, s'.pending[t], setup.tenant, Body(s'.agent, t).value)
    {
      LocalKeepsBodies(s, local, t);
    }
  }

  // ----- service steps and sending -----

  lemma AcceptedAsStable(accepted: seq<Service.Accepted>, more: seq<Service.Accepted>, h: nat, task: Service.Task)
    requires AcceptedAs(accepted, h, task) && accepted <= more
    ensures AcceptedAs(more, h, task)
  {
    var i :| 0 <= i < |accepted| && accepted[i] == Service.Accepted(task, h);
    assert more[i] == accepted[i];
  }

  lemma RequestedStable(setup: Setup, service: Service.State, remote: Service.Action, h: nat, tenant: string,
      body: string)
    requires Service.Inv(service) && Requested(service, h, tenant, body)
    ensures Requested(Service.Step(setup.cfg, service, remote), h, tenant, body)
  {
    hide Service.Process, Service.ChannelInv, Service.TicketInv, AcceptedAs;
    var service' := Service.Step(setup.cfg, service, remote);
    Service.StepKeepsInv(setup.cfg, service, remote);
    var task := Service.Task(tenant, body);
    if h in service.handlers {
      if remote.Offer? && remote.h == h && h in service'.replies && service'.replies[h] == Service.ACCEPTED {
        OfferedAs(service.accepted, h, task);
        assert service'.accepted == service.accepted + [Service.Accepted(task, h)];
      }
    } else if AcceptedAs(service.accepted, h, task) {
      AcceptedAsStable(service.accepted, service'.accepted, h, task);
    }
  }

  lemma OfferedAs(accepted: seq<Service.Accepted>, h: nat, task: Service.Task)
    ensures AcceptedAs(accepted + [Service.Accepted(task, h)], h, task)
  {
    assert (accepted + [Service.Accepted(task, h)])[|accepted|] == Service.Accepted(task, h);
  }

  lemma ServiceStepKeepsInv(setup: Setup, s: State, remote: Service.Action)
    requires Inv(setup, s)
    ensures Inv(setup, Step(setup, s, ServiceStep(remote)))
  {
    hide Agent.Inv, Service.Inv, Service.Step, Requested, ReceiptInv, DistinctInv;
    var s' := Step(setup, s, ServiceStep(remote));
    Service.StepKeepsInv(setup.cfg, s.service, remote);
    ReceiptsStable(setup, s, s');
    DistinctStable(s, s');
    forall t | t in s'.pending
      ensures Requested(s'.service, s'.pending[t], setup.tenant, Body(s'.agent, t).value)
    {
      RequestedStable(setup, s.service, remote, s.pending[t], setup.tenant, Body(s.agent, t).value);
    }
  }

  /** A request that is being received is not one the service has met. */
  lemma NewRequest(service: Service.State, h: nat)
    requires Service.Inv(service) && Service.Enabled(service, Service.Receive(h, "", ""))
    ensures forall i :: 0 <= i < |service.accepted| ==> service.accepted[i].handler != h
    ensures forall tenant, body :: !Requested(service, h, tenant, body)
  {
    hide Service.ChannelInv, Service.TicketInv;
  }

  lemma SendKeepsInv(setup: Setup, s: State, t: nat, h: nat)
    requires Inv(setup, s) && Enabled(s, Send(t, h))
    ensures Inv(setup, Step(setup, s, Send(t, h)))
  {
    hide Agent.Inv, Service.Inv, ReceiptInv, DistinctInv;
    var s' := Step(setup, s, Send(t, h));
    var body := Body(s.agent, t).value;
    var remote := Service.Receive(h, setup.tenant, body);
    Service.StepKeepsInv(setup.cfg, s.service, remote);
    NewRequest(s.service, h);
    ReceiptsStable(setup, s, s');
    DistinctStable(s, s');
    assert Requested(s'.service, h, setup.tenant, body);
    hide Requested;
    forall u | u in s'.pending
      ensures Requested(s'.service, s'.pending[u], setup.tenant, Body(s'.agent, u).value)
    {
      if u != t {
        RequestedStable(setup, s.service, remote, s.pending[u], setup.tenant, Body(s.agent, u).value);
      }
    }
    forall u, v | u in s'.pending && v in s'.pending && u != v ensures s'.pending[u] != s'.pending[v] {
      assert u != t ==> Requested(s.service, s.pending[u], setup.tenant, Body(s.agent, u).value);
      assert v != t ==> Requested(s.service, s.pending[v], setup.tenant, Body(s.agent, v).value);
    }
  }

  // ----- replies -----

  lemma ReplyKeepsOthers(agent: Agent.State, t: nat, reply: Agent.Reply, u: nat)
    requires t != u
    ensures Body(ReplyTo(agent, t, reply), u) == Body(agent, u)
    ensures u in ReplyTo(agent, t, reply).threads <==> u in agent.threads
    ensures u in agent.threads ==> ReplyTo(agent, t, reply).threads[u] == agent.threads[u]
  {
  }

  /** What a reply does to the call that waits for it. */
  lemma ReplyOutcome(agent: Agent.State, t: nat, reply: Agent.Reply)
    requires Body(agent, t).Some?
    ensures var agent' := ReplyTo(agent, t, reply);
            && agent'.history == agent.history && t in agent.threads && t in agent'.threads
            && (!Agent.Acknowledges(reply) ==> agent'.acks == agent.acks && !agent'.threads[t].Delivered?)
            && (Agent.Acknowledges(reply) && agent.threads[t].Sending? ==>
                  agent'.acks == agent.acks && agent'.threads[t] == Agent.Delivered(Body(agent, t).value))
            && (Agent.Acknowledges(reply) && !agent.threads[t].Sending? ==>
                  && agent.threads[t].Posting? && |agent.threads[t].flushed| < |agent.threads[t].snapshot|
                  && !agent'.threads[t].Delivered?
                  && agent'.acks
                     == agent.acks + [Agent.Ack(agent.threads[t].snapshot[|agent.threads[t].flushed|].id, t)])
  {
  }

  lemma ReplyKeepsAgentInv(agent: Agent.State, t: nat, reply: Agent.Reply)
    requires Agent.Inv(agent)
    ensures Agent.Inv(ReplyTo(agent, t, reply))
  {
    Agent.StepKeepsInv(agent, Agent.TransmitReply(t, reply));
    Agent.StepKeepsInv(agent, Agent.FlushReply(t, reply));
  }

  /** Dropping a pending request whose caller has been answered. */
  lemma PendingAfterReply(setup: Setup, s: State, s': State, t: nat, reply: Agent.Reply)
    requires PendingInv(setup, s) && s'.service == s.service
    requires s'.agent == ReplyTo(s.agent, t, reply) && s'.pending == s.pending - {t}
    ensures PendingInv(setup, s')
  {
    hide Requested;
    forall u | u in s'.pending
      ensures Body(s'.agent, u).Some? && Requested(s'.service, s'.pending[u], setup.tenant, Body(s'.agent, u).value)
    {
      ReplyKeepsOthers(s.agent, t, reply, u);
    }
  }

  /** A reply that does not acknowledge. */
  lemma RefusalKeepsInv(setup: Setup, s: State, s': State, t: nat, reply: Agent.Reply)
    requires Inv(setup, s) && Body(s.agent, t).Some? && !Agent.Acknowledges(reply)
    requires s' == s.(agent := ReplyTo(s.agent, t, reply), pending := s.pending - {t}, abandoned := s'.abandoned)
    ensures Inv(setup, s')
  {
    hide Agent.Inv, Service.Inv, Requested, ReceiptInv, DistinctInv, ReplyTo;
    ReplyKeepsAgentInv(s.agent, t, reply);
    ReplyOutcome(s.agent, t, reply);
    PendingAfterReply(setup, s, s', t, reply);
    forall u ensures u in s'.agent.threads && s'.agent.threads[u].Delivered? <==>
        u in s.agent.threads && s.agent.threads[u].Delivered?
      ensures u in s.agent.threads && s.agent.threads[u].Delivered? ==> s'.agent.threads[u] == s.agent.threads[u]
    {
      if u != t && u >= 0 {
        ReplyKeepsOthers(s.agent, t, reply, u);
      }
    }
    ReceiptsStable(setup, s, s');
    DistinctStable(s, s');
  }

  lemma {:induction false} TicketOfRequest(accepted: seq<Service.Accepted>, h: nat)
    requires Service.Enqueued(accepted, h)
    ensures TicketOf(accepted, h) < |accepted| && accepted[TicketOf(accepted, h)].handler == h
  {
    var i :| 0 <= i < |accepted| && accepted[i].handler == h;
    if accepted[0].handler != h {
      assert accepted[1..][i - 1].handler == h;
      TicketOfRequest(accepted[1..], h);
    }
  }

  /** The ticket behind a 202 is a task of the tenant with the body that was sent, and was not
      behind any earlier 2xx. */
  lemma AnsweredTicket(setup: Setup, s: State, t: nat)
    requires Inv(setup, s) && t in s.pending && s.pending[t] in s.service.replies
    requires s.service.replies[s.pending[t]] == Service.ACCEPTED
    ensures Body(s.agent, t).Some?
    ensures var ticket := TicketOf(s.service.accepted, s.pending[t]);
            && IsTask(s.service.accepted, ticket, setup.tenant, Body(s.agent, t).value)
            && s.service.accepted[ticket].handler == s.pending[t]
  {
    hide Agent.Inv, Service.ChannelInv, Service.TicketInv, ReceiptInv, DistinctInv;
    var h := s.pending[t];
    TicketOfRequest(s.service.accepted, h);
    assert Requested(s.service, h, setup.tenant, Body(s.agent, t).value);
    var task := Service.Task(setup.tenant, Body(s.agent, t).value);
    var i :| 0 <= i < |s.service.accepted| && s.service.accepted[i] == Service.Accepted(task, h);
    assert i == TicketOf(s.service.accepted, h);
  }

  lemma StillConsumed(s: State, s': State, t: nat, i: nat)
    requires s'.service == s.service && s'.pending == s.pending - {t} && Consumed(s, i)
    ensures Consumed(s', i)
  {
  }

  lemma NowConsumed(setup: Setup, s: State, s': State, t: nat, i: nat)
    requires PendingInv(setup, s) && t in s.pending
    requires s'.service == s.service && s'.pending == s.pending - {t}
    requires i < |s.service.accepted| && s.service.accepted[i].handler == s.pending[t]
    ensures Consumed(s', i) && !Consumed(s, i)
  {
  }

  /** The parts of the state that an answer leaves alone, whatever it is. */
  ghost predicate SameElsewhere(s: State, s': State, t: nat) {
    && s'.service == s.service && s'.pending == s.pending - {t} && s'.agent.history == s.agent.history
    && forall u: nat :: u != t ==>
         && (u in s'.agent.threads <==> u in s.agent.threads)
         && (u in s.agent.threads ==> s'.agent.threads[u] == s.agent.threads[u])
  }

  lemma AnswerIsLocal(s: State, t: nat)
    requires Enabled(s, Answer(t)) && Body(s.agent, t).Some?
    ensures SameElsewhere(s, AnswerStep(s, t), t)
  {
    hide ReplyTo, TicketOf;
    var reply := Agent.Status(s.service.replies[s.pending[t]]);
    ReplyOutcome(s.agent, t, reply);
    forall u: nat | u != t
      ensures u in ReplyTo(s.agent, t, reply).threads <==> u in s.agent.threads
      ensures u in s.agent.threads ==> ReplyTo(s.agent, t, reply).threads[u] == s.agent.threads[u]
    {
      ReplyKeepsOthers(s.agent, t, reply, u);
    }
  }

  lemma DirectEffect(s: State, t: nat)
    requires Enabled(s, Answer(t)) && s.service.replies[s.pending[t]] == Service.ACCEPTED
    requires t in s.agent.threads && s.agent.threads[t].Sending?
    ensures var s' := AnswerStep(s, t);
            && SameElsewhere(s, s', t) && s'.ackTickets == s.ackTickets && s'.agent.acks == s.agent.acks
            && s'.direct == s.direct[t := TicketOf(s.service.accepted, s.pending[t])]
            && t in s'.agent.threads && s'.agent.threads[t] == Agent.Delivered(s.agent.threads[t].payload)
  {
    AnswerIsLocal(s, t);
    hide ReplyTo, TicketOf;
    ReplyOutcome(s.agent, t, Agent.Status(Service.ACCEPTED));
  }

  /** The ticket answers the request that call t waited for. */
  predicate Answers(setup: Setup, s: State, t: nat, ticket: nat) {
    && t in s.pending && Body(s.agent, t).Some?
    && IsTask(s.service.accepted, ticket, setup.tenant, Body(s.agent, t).value)
    && s.service.accepted[ticket].handler == s.pending[t]
  }

  lemma DirectKeepsReceipts(setup: Setup, s: State, s': State, t: nat, ticket: nat)
    requires ReceiptInv(setup, s) && SameElsewhere(s, s', t) && Answers(setup, s, t, ticket)
    requires s'.ackTickets == s.ackTickets && s'.agent.acks == s.agent.acks && s'.direct == s.direct[t := ticket]
    requires t in s'.agent.threads && s'.agent.threads[t] == Agent.Delivered(Body(s.agent, t).value)
    ensures ReceiptInv(setup, s')
  {
    hide AckReceipt;
    forall k | 0 <= k < |s'.ackTickets| ensures AckReceipt(setup, s', k) {
      AckReceiptStable(setup, s, s', k);
    }
  }

  /** A ticket that was just received answers no pending request, and did not before. */
  lemma NewTicketIsDistinct(setup: Setup, s: State, s': State, t: nat, ticket: nat)
    requires PendingInv(setup, s) && SameElsewhere(s, s', t) && Answers(setup, s, t, ticket)
    ensures Consumed(s', ticket)
    ensures forall i: nat :: Consumed(s, i) ==> Consumed(s', i) && i != ticket
  {
    hide Requested;
    NowConsumed(setup, s, s', t, ticket);
    forall i: nat | Consumed(s, i) ensures Consumed(s', i) && i != ticket {
      StillConsumed(s, s', t, i);
    }
  }

  lemma DirectKeepsDistinct(setup: Setup, s: State, s': State, t: nat, ticket: nat)
    requires PendingInv(setup, s) && DistinctInv(s) && SameElsewhere(s, s', t) && Answers(setup, s, t, ticket)
    requires s'.ackTickets == s.ackTickets && s'.direct == s.direct[t := ticket]
    ensures DistinctInv(s')
  {
    NewTicketIsDistinct(setup, s, s', t, ticket);
    hide PendingInv, SameElsewhere, Answers, Consumed;
  }

  lemma DirectAnswer(setup: Setup, s: State, t: nat)
    requires Inv(setup, s) && Enabled(s, Answer(t)) && s.service.replies[s.pending[t]] == Service.ACCEPTED
    requires t in s.agent.threads && s.agent.threads[t].Sending?
    ensures ReceiptInv(setup, AnswerStep(s, t)) && DistinctInv(AnswerStep(s, t))
  {
    hide Agent.Inv, Service.Inv, PendingInv, ReceiptInv, DistinctInv, SameElsewhere, AnswerStep, TicketOf;
    var ticket := TicketOf(s.service.accepted, s.pending[t]);
    AnsweredTicket(setup, s, t);
    DirectEffect(s, t);
    DirectKeepsReceipts(setup, s, AnswerStep(s, t), t, ticket);
    DirectKeepsDistinct(setup, s, AnswerStep(s, t), t, ticket);
  }

  lemma AckReceiptStable(setup: Setup, s: State, s': State, k: nat)
    requires |s.ackTickets| == |s.agent.acks| && |s'.ackTickets| == |s'.agent.acks|
    requires k < |s.ackTickets| && AckReceipt(setup, s, k)
    requires s.ackTickets <= s'.ackTickets && s.agent.acks <= s'.agent.acks
    requires s'.service == s.service && s'.agent.history == s.agent.history
    ensures AckReceipt(setup, s', k)
  {
  }

  lemma PostedRowIsStored(agent: Agent.State, t: nat)
    requires Agent.Inv(agent) && t in agent.threads && agent.threads[t].Posting?
    ensures var th := agent.threads[t];
            && |th.flushed| < |th.snapshot|
            && Agent.StoredAs(agent.history, th.snapshot[|th.flushed|].id, th.snapshot[|th.flushed|].payload)
  {
    hide Agent.QueueInv, Agent.AckInv, Agent.AckedUpTo;
    var th := agent.threads[t];
    assert Agent.ThreadOk(agent.history, Agent.Acked(agent.acks), Agent.Released(agent), th);
    assert agent.history[th.base + |th.flushed|] == th.snapshot[|th.flushed|];
  }

  lemma CachedEffect(s: State, t: nat)
    requires Enabled(s, Answer(t)) && s.service.replies[s.pending[t]] == Service.ACCEPTED
    requires Body(s.agent, t).Some? && s.agent.threads[t].Posting?
    ensures var s', th := AnswerStep(s, t), s.agent.threads[t];
            && |th.flushed| < |th.snapshot|
            && SameElsewhere(s, s', t) && s'.direct == s.direct
            && s'.ackTickets == s.ackTickets + [TicketOf(s.service.accepted, s.pending[t])]
            && s'.agent.acks == s.agent.acks + [Agent.Ack(th.snapshot[|th.flushed|].id, t)]
            && t in s'.agent.threads && !s'.agent.threads[t].Delivered?
  {
    AnswerIsLocal(s, t);
    hide ReplyTo, TicketOf;
    ReplyOutcome(s.agent, t, Agent.Status(Service.ACCEPTED));
  }

  lemma CachedKeepsReceipts(setup: Setup, s: State, s': State, t: nat, ticket: nat, id: int)
    requires ReceiptInv(setup, s) && SameElsewhere(s, s', t) && Answers(setup, s, t, ticket)
    requires s'.ackTickets == s.ackTickets + [ticket] && s'.agent.acks == s.agent.acks + [Agent.Ack(id, t)]
    requires Agent.StoredAs(s.agent.history, id, Body(s.agent, t).value)
    requires s'.direct == s.direct && t in s.agent.threads && !s.agent.threads[t].Delivered?
    requires t in s'.agent.threads && !s'.agent.threads[t].Delivered?
    ensures ReceiptInv(setup, s')
  {
    assert AckReceipt(setup, s', |s.ackTickets|);
    hide AckReceipt, Agent.StoredAs;
    forall k | 0 <= k < |s'.ackTickets| ensures AckReceipt(setup, s', k) {
      if k < |s.ackTickets| {
        AckReceiptStable(setup, s, s', k);
      }
    }
  }

  lemma CachedKeepsDistinct(setup: Setup, s: State, s': State, t: nat, ticket: nat)
    requires PendingInv(setup, s) && DistinctInv(s) && SameElsewhere(s, s', t) && Answers(setup, s, t, ticket)
    requires s'.ackTickets == s.ackTickets + [ticket] && s'.direct == s.direct
    ensures DistinctInv(s')
  {
    NewTicketIsDistinct(setup, s, s', t, ticket);
    hide PendingInv, SameElsewhere, Answers, Consumed;
  }

  lemma CachedAnswer(setup: Setup, s: State, t: nat)
    requires Inv(setup, s) && Enabled(s, Answer(t)) && s.service.replies[s.pending[t]] == Service.ACCEPTED
    requires t in s.agent.threads && s.agent.threads[t].Posting?
    ensures ReceiptInv(setup, AnswerStep(s, t)) && DistinctInv(AnswerStep(s, t))
  {
    hide Agent.Inv, Service.Inv, PendingInv, ReceiptInv, DistinctInv, SameElsewhere, AnswerStep, TicketOf;
    hide Agent.StoredAs;
    var ticket := TicketOf(s.service.accepted, s.pending[t]);
    var th := s.agent.threads[t];
    AnsweredTicket(setup, s, t);
    PostedRowIsStored(s.agent, t);
    CachedEffect(s, t);
    CachedKeepsReceipts(setup, s, AnswerStep(s, t), t, ticket, th.snapshot[|th.flushed|].id);
    CachedKeepsDistinct(setup, s, AnswerStep(s, t), t, ticket);
  }

  lemma AnswerKeepsInv(setup: Setup, s: State, t: nat)
    requires Inv(setup, s) && Enabled(s, Answer(t))
    ensures Inv(setup, AnswerStep(s, t))
  {
    hide Agent.Inv, Requested, ReceiptInv, DistinctInv, ReplyTo, TicketOf, Service.ChannelInv, Service.TicketInv;
    var s' := AnswerStep(s, t);
    var reply := Agent.Status(s.service.replies[s.pending[t]]);
    if Agent.Acknowledges(reply) {
      ReplyKeepsAgentInv(s.agent, t, reply);
      PendingAfterReply(setup, s, s', t, reply);
      if s.agent.threads[t].Sending? {
        DirectAnswer(setup, s, t);
      } else {
        CachedAnswer(setup, s, t);
      }
    } else {
      RefusalKeepsInv(setup, s, s', t, reply);
    }
  }

  lemma StepKeepsInv(setup: Setup, s: State, a: Action)
    requires Inv(setup, s)
    ensures Inv(setup, Step(setup, s, a))
  {
    hide Inv;
    if Enabled(s, a) {
      match a {
        case AgentStep(local) => AgentStepKeepsInv(setup, s, local);
        case Send(t, h) => SendKeepsInv(setup, s, t, h);
        case ServiceStep(remote) => ServiceStepKeepsInv(setup, s, remote);
        case Answer(t) => AnswerKeepsInv(setup, s, t);
        case Fail(t, reply) => RefusalKeepsInv(setup, s, Step(setup, s, a), t, reply);
      }
    }
  }

  lemma {:induction false} RunKeepsInv(setup: Setup, s: State, actions: seq<Action>)
    requires Inv(setup, s)
    ensures Inv(setup, Run(setup, s, actions))
    decreases |actions|
  {
    hide Inv, Step;
    if actions != [] {
      StepKeepsInv(setup, s, actions[0]);
      RunKeepsInv(setup, Step(setup, s, actions[0]), actions[1..]);
    }
  }

  lemma InitialInv(setup: Setup)
    ensures Inv(setup, Initial(setup))
  {
    FlushTheorems.InitialInv();
    Service.NewServiceInv(setup.workers, setup.bufferSize);
  }
}
