/** How often the service gets the payload of one `Transmit` call, exactly, in every joint run. */
module DeliveryTheorems {
  import Agent = FlushSystem
  import FlushTheorems
  import FlushRepeats
  import Service = Ingestion
  import opened Pipeline
  import opened Deliveries
  import PipelineTheorems

  // ----- what every request carries -----

  /** The payload behind a request. */
  ghost predicate Carries(agent: Agent.State, origin: Origin, body: string) {
    match origin
    case OfCall(c) =>
      c in agent.threads && FlushTheorems.Transmitting(agent.threads[c]) && agent.threads[c].payload == body
    case OfRow(id, _) => Agent.StoredAs(agent.history, id, body)
  }

  ghost predicate SentWith(setup: Setup, s: State, h: nat, body: string)
    requires h in s.sent
  {
    Carries(s.agent, s.sent[h], body) && Requested(s.service, h, setup.tenant, body)
  }

  ghost predicate BodiesKnown(setup: Setup, s: State) {
    forall h :: h in s.sent ==> exists body :: SentWith(setup, s, h, body)
  }

  lemma CarriesStable(agent: Agent.State, a: Agent.Action, origin: Origin, body: string)
    requires Agent.Inv(agent) && Carries(agent, origin, body)
    ensures Carries(Agent.Step(agent, a), origin, body)
  {
    hide Agent.Inv;
    match origin {
      case OfCall(c) =>
        FlushTheorems.TransmitKeepsPayload(agent, [a], c);
        assert [a][1..] == [] && Agent.Run(agent, [a]) == Agent.Step(agent, a);
      case OfRow(id, _) =>
        hide Agent.Step;
        Agent.StepKeepsInv(agent, a);
        Agent.StoredAsStable(agent.history, Agent.Step(agent, a).history, id, body);
    }
  }

  lemma OriginCarriesBody(agent: Agent.State, t: nat)
    requires Agent.Inv(agent) && Body(agent, t).Some?
    ensures Carries(agent, OriginOf(agent, t), Body(agent, t).value)
  {
    hide Agent.Inv;
    if agent.threads[t].Posting? {
      PostedRowIsStored(agent, t);
    }
  }

  lemma AgentStepKeepsBodies(setup: Setup, s: State, s': State, a: Agent.Action)
    requires Agent.Inv(s.agent) && BodiesKnown(setup, s)
    requires s'.agent == Agent.Step(s.agent, a) && s'.service == s.service && s'.sent == s.sent
    ensures BodiesKnown(setup, s')
  {
    hide Agent.Inv, Agent.Step, Carries, Requested;
    forall h | h in s'.sent ensures exists body :: SentWith(setup, s', h, body) {
      var body :| SentWith(setup, s, h, body);
      CarriesStable(s.agent, a, s.sent[h], body);
      assert SentWith(setup, s', h, body);
    }
  }

  lemma ServiceStepKeepsBodies(setup: Setup, s: State, s': State, remote: Service.Action)
    requires Service.Inv(s.service) && BodiesKnown(setup, s)
    requires s'.agent == s.agent && s'.service == Service.Step(setup.cfg, s.service, remote)
    requires forall h :: h in s'.sent ==> (h in s.sent && s'.sent[h] == s.sent[h])
                                          || exists body :: SentWith(setup, s', h, body)
    ensures BodiesKnown(setup, s')
  {
    hide Service.Inv, Service.Step, Carries, Requested;
    forall h | h in s'.sent ensures exists body :: SentWith(setup, s', h, body) {
      if h in s.sent && s'.sent[h] == s.sent[h] {
        var body :| SentWith(setup, s, h, body);
        RequestedStable(setup, s.service, remote, h, setup.tenant, body);
        assert SentWith(setup, s', h, body);
      }
    }
  }

  lemma StepKeepsBodies(setup: Setup, s: State, a: Action)
    requires Inv(setup, s) && BodiesKnown(setup, s)
    ensures BodiesKnown(setup, Step(setup, s, a))
  {
    hide Agent.Inv, Service.Inv, BodiesKnown, PendingInv, ReceiptInv, DistinctInv, Agent.Step, TicketOf, Body;
    var s' := Step(setup, s, a);
    if Enabled(s, a) {
      match a {
        case AgentStep(local) => AgentStepKeepsBodies(setup, s, s', local);
        case Send(t, h) => SendKeepsBodies(setup, s, t, h);
        case ServiceStep(remote) => ServiceStepKeepsBodies(setup, s, s', remote);
        case Answer(t) =>
          AgentStepKeepsBodies(setup, s, s', ReplyAction(s.agent, t, Agent.Status(s.service.replies[s.pending[t]])));
        case Fail(t, reply) => AgentStepKeepsBodies(setup, s, s', ReplyAction(s.agent, t, reply));
      }
    }
  }

  lemma SendKeepsBodies(setup: Setup, s: State, t: nat, h: nat)
    requires Inv(setup, s) && BodiesKnown(setup, s) && Enabled(s, Send(t, h))
    ensures BodiesKnown(setup, Step(setup, s, Send(t, h)))
  {
    hide Agent.Inv, Service.Inv, BodiesKnown, PendingInv, ReceiptInv, DistinctInv, Carries, Body, OriginOf;
    var s' := Step(setup, s, Send(t, h));
    var body := Body(s.agent, t).value;
    OriginCarriesBody(s.agent, t);
    assert SentWith(setup, s', h, body);
    ServiceStepKeepsBodies(setup, s, s', Service.Receive(h, setup.tenant, body));
  }

  ghost predicate FullInv(setup: Setup, s: State) {
    Inv(setup, s) && LedgerInv(s) && BodiesKnown(setup, s) && FlushRepeats.RepeatInv(s.agent)
  }

  lemma {:induction false} RunKeepsBodies(setup: Setup, s: State, actions: seq<Action>)
    requires Inv(setup, s) && BodiesKnown(setup, s)
    ensures BodiesKnown(setup, Run(setup, s, actions))
    decreases |actions|
  {
    hide Inv, BodiesKnown, Step;
    if actions != [] {
      StepKeepsInv(setup, s, actions[0]);
      StepKeepsBodies(setup, s, actions[0]);
      RunKeepsBodies(setup, Step(setup, s, actions[0]), actions[1..]);
    }
  }

  lemma EveryRunIsAccounted(setup: Setup, actions: seq<Action>)
    ensures FullInv(setup, Run(setup, Initial(setup), actions))
  {
    hide Inv, Agent.Inv;
    InitialInv(setup);
    FlushTheorems.InitialInv();
    assert Inv(setup, Initial(setup)) && LedgerInv(Initial(setup)) && BodiesKnown(setup, Initial(setup));
    assert FlushRepeats.RepeatInv(Agent.INITIAL);
    hide LedgerInv, BodiesKnown, FlushRepeats.RepeatInv;
    RunKeepsLedger(setup, Initial(setup), actions);
    RunKeepsBodies(setup, Initial(setup), actions);
    AgentSeesARun(setup, Initial(setup), actions);
    FlushRepeats.RunKeepsRepeatInv(Agent.INITIAL, AgentRun(setup, Initial(setup), actions));
  }

  // ----- the tasks of one payload -----

  /** The row in which call c cached its payload. */
  predicate RowOf(s: State, c: nat, id: int) {
    c in s.agent.threads && s.agent.threads[c].Cached? && s.agent.threads[c].id == id
  }

  /** Request h was made for the payload of call c, by the call or by a flush. */
  predicate About(s: State, h: nat, c: nat) {
    h in s.sent && match s.sent[h] case OfCall(x) => x == c case OfRow(id, _) => RowOf(s, c, id)
  }

  /** The service's tasks that came from the payload of call c. */
  ghost function TasksOf(s: State, c: nat): set<nat> {
    set i: nat | i < |s.service.accepted| && About(s, s.service.accepted[i].handler, c)
  }

  /** The acknowledgements of the row of call c. */
  ghost function AcksOf(s: State, c: nat): set<nat> {
    set k: nat | k < |s.agent.acks| && RowOf(s, c, s.agent.acks[k].id)
  }

  ghost function DirectOf(s: State, c: nat): set<nat> {
    if c in s.direct then {c} else {}
  }

  /** Requests for the payload that the service accepted, and the agent gave up on. */
  ghost function GivenUpOn(s: State, c: nat): set<nat> {
    set h | h in s.abandoned && About(s, h, c) && Service.Enqueued(s.service.accepted, h)
  }

  /** Those that it accepted, and the agent still waits for the answer. */
  ghost function Awaited(s: State, c: nat): set<nat> {
    set h | h in s.sent && Pending(s, h) && About(s, h, c) && Service.Enqueued(s.service.accepted, h)
  }

  ghost function AckTasks(s: State, ks: set<nat>): set<nat>
    requires |s.ackTickets| == |s.agent.acks| && forall k :: k in ks ==> k < |s.agent.acks|
  {
    set k | k in ks :: s.ackTickets[k]
  }

  ghost function DirectTasks(s: State, c: nat): set<nat> {
    if c in s.direct then {s.direct[c]} else {}
  }

  ghost function TasksBehind(s: State, hs: set<nat>): set<nat> {
    set h | h in hs :: TicketOf(s.service.accepted, h)
  }

  lemma {:induction false} AckTasksSize(s: State, ks: set<nat>)
    requires |s.ackTickets| == |s.agent.acks| && forall k :: k in ks ==> k < |s.agent.acks|
    requires forall j, k :: 0 <= j < k < |s.ackTickets| ==> s.ackTickets[j] != s.ackTickets[k]
    ensures |AckTasks(s, ks)| == |ks|
  {
    if ks != {} {
      var k :| k in ks;
      AckTasksSize(s, ks - {k});
      assert s.ackTickets[k] !in AckTasks(s, ks - {k});
      assert AckTasks(s, ks) == AckTasks(s, ks - {k}) + {s.ackTickets[k]};
    }
  }

  lemma {:induction false} TasksBehindSize(s: State, hs: set<nat>)
    requires forall h :: h in hs ==> Service.Enqueued(s.service.accepted, h)
    ensures |TasksBehind(s, hs)| == |hs|
  {
    if hs != {} {
      var h :| h in hs;
      TasksBehindSize(s, hs - {h});
      forall x | x in hs
        ensures TicketOf(s.service.accepted, x) < |s.service.accepted|
        ensures s.service.accepted[TicketOf(s.service.accepted, x)].handler == x
      {
        TicketOfRequest(s.service.accepted, x);
      }
      assert TicketOf(s.service.accepted, h) !in TasksBehind(s, hs - {h});
      assert TasksBehind(s, hs) == TasksBehind(s, hs - {h}) + {TicketOf(s.service.accepted, h)};
    }
  }

  // ----- each task is behind one thing -----

  /** No two tasks answer one request. */
  lemma TicketOfHandler(s: State, i: nat)
    requires Service.Inv(s.service) && i < |s.service.accepted|
    ensures var h := s.service.accepted[i].handler;
            Service.Enqueued(s.service.accepted, h) && TicketOf(s.service.accepted, h) == i
  {
    hide Service.ChannelInv, Service.TicketInv;
    TicketOfRequest(s.service.accepted, s.service.accepted[i].handler);
  }

  lemma TaskIsBehindSomething(setup: Setup, s: State, c: nat, i: nat)
    requires Inv(setup, s) && LedgerInv(s) && i in TasksOf(s, c)
    ensures || i in AckTasks(s, AcksOf(s, c)) || i in DirectTasks(s, c)
            || i in TasksBehind(s, GivenUpOn(s, c)) || i in TasksBehind(s, Awaited(s, c))
  {
    hide Agent.Inv, Service.Inv, PendingInv, ReceiptInv, DistinctInv, TicketOf, Pending, Service.Enqueued;
    var h := s.service.accepted[i].handler;
    TicketOfHandler(s, i);
    assert AnswerRecorded(s, h);
    AcceptedWas202(setup, s, i);
    if h in s.abandoned {
      assert h in GivenUpOn(s, c);
    } else if Pending(s, h) {
      assert h in Awaited(s, c);
    } else if Acknowledged(s, h) {
      var k :| AckAnswers(s, k, h);
      TicketOfHandler(s, s.ackTickets[k]);
      assert k in AcksOf(s, c);
    } else {
      var t: nat :| DirectAnswers(s, t, h);
      TicketOfHandler(s, s.direct[t]);
      assert t == c;
    }
  }

  lemma AcceptedWas202(setup: Setup, s: State, i: nat)
    requires Service.Inv(s.service) && i < |s.service.accepted|
    ensures var h := s.service.accepted[i].handler; h in s.service.replies && s.service.replies[h] == Service.ACCEPTED
  {
    hide Service.ChannelInv, Service.TicketInv;
  }

  lemma WhatIsBehindIsATask(setup: Setup, s: State, c: nat)
    requires Inv(setup, s) && LedgerInv(s)
    ensures AckTasks(s, AcksOf(s, c)) <= TasksOf(s, c) && DirectTasks(s, c) <= TasksOf(s, c)
    ensures TasksBehind(s, GivenUpOn(s, c)) <= TasksOf(s, c) && TasksBehind(s, Awaited(s, c)) <= TasksOf(s, c)
  {
    hide Agent.Inv, Service.Inv, PendingInv, ReceiptInv, DistinctInv, TicketOf, Pending, AnswerRecorded;
    hide Service.Enqueued;
    forall k | k in AcksOf(s, c) ensures s.ackTickets[k] in TasksOf(s, c) {
      assert AckIsAnswer(s, k);
    }
    if c in s.direct {
      assert DirectIsAnswer(s, c);
    }
    forall h | h in GivenUpOn(s, c) || h in Awaited(s, c) ensures TicketOf(s.service.accepted, h) in TasksOf(s, c) {
      TicketOfRequest(s.service.accepted, h);
    }
  }

  /** What is behind a task is one thing only. */
  lemma BehindAreDisjoint(setup: Setup, s: State, c: nat)
    requires Inv(setup, s) && LedgerInv(s)
    ensures AckTasks(s, AcksOf(s, c)) !! DirectTasks(s, c)
    ensures (AckTasks(s, AcksOf(s, c)) + DirectTasks(s, c)) !! TasksBehind(s, GivenUpOn(s, c))
    ensures (AckTasks(s, AcksOf(s, c)) + DirectTasks(s, c)) !! TasksBehind(s, Awaited(s, c))
    ensures TasksBehind(s, GivenUpOn(s, c)) !! TasksBehind(s, Awaited(s, c))
  {
    hide Agent.Inv, Service.Inv, PendingInv, ReceiptInv, TicketOf, Service.Enqueued, AnswerRecorded, About;
    forall h | h in GivenUpOn(s, c) || h in Awaited(s, c)
      ensures TicketOf(s.service.accepted, h) < |s.service.accepted|
      ensures s.service.accepted[TicketOf(s.service.accepted, h)].handler == h
    {
      TicketOfRequest(s.service.accepted, h);
    }
    forall h | h in Awaited(s, c) ensures h !in s.abandoned
      ensures forall i: nat :: i < |s.service.accepted| && s.service.accepted[i].handler == h ==> !Consumed(s, i)
    {
      var t: nat :| WaitsFor(s, t, h);
      assert WaitsRightly(s, t);
    }
    forall k | k in AcksOf(s, c)
      ensures s.ackTickets[k] < |s.service.accepted| && Consumed(s, s.ackTickets[k])
      ensures s.service.accepted[s.ackTickets[k]].handler !in s.abandoned
    {
      assert AckIsAnswer(s, k);
    }
    if c in s.direct {
      assert DirectIsAnswer(s, c) && Consumed(s, s.direct[c]);
    }
  }

  ghost predicate Partition(s: State, c: nat)
    requires |s.ackTickets| == |s.agent.acks|
  {
    && TasksOf(s, c) == AckTasks(s, AcksOf(s, c)) + DirectTasks(s, c)
                        + TasksBehind(s, GivenUpOn(s, c)) + TasksBehind(s, Awaited(s, c))
    && AckTasks(s, AcksOf(s, c)) !! DirectTasks(s, c)
    && (AckTasks(s, AcksOf(s, c)) + DirectTasks(s, c)) !! TasksBehind(s, GivenUpOn(s, c))
    && (AckTasks(s, AcksOf(s, c)) + DirectTasks(s, c)) !! TasksBehind(s, Awaited(s, c))
    && TasksBehind(s, GivenUpOn(s, c)) !! TasksBehind(s, Awaited(s, c))
  }

  lemma TasksArePartitioned(setup: Setup, s: State, c: nat)
    requires Inv(setup, s) && LedgerInv(s)
    ensures |s.ackTickets| == |s.agent.acks| && Partition(s, c)
  {
    WhatIsBehindIsATask(setup, s, c);
    BehindAreDisjoint(setup, s, c);
    forall i | i in TasksOf(s, c)
      ensures || i in AckTasks(s, AcksOf(s, c)) || i in DirectTasks(s, c)
              || i in TasksBehind(s, GivenUpOn(s, c)) || i in TasksBehind(s, Awaited(s, c))
    {
      TaskIsBehindSomething(setup, s, c, i);
    }
    hide Inv, TasksOf, AckTasks, DirectTasks, TasksBehind, GivenUpOn, Awaited, AcksOf;
  }

  /**
    The books balance. In every run, and for every call: the tasks that its payload became in the
    service are as many as the 2xx the agent received for it, by the call or by flushes of its row,
    and the accepted requests for it whose answer the agent gave up on or still waits for.
   */
  lemma TasksAreCounted(setup: Setup, actions: seq<Action>, c: nat)
    ensures var s := Run(setup, Initial(setup), actions);
            |TasksOf(s, c)| == |AcksOf(s, c)| + |DirectOf(s, c)| + |GivenUpOn(s, c)| + |Awaited(s, c)|
  {
    var s := Run(setup, Initial(setup), actions);
    EveryRunIsAccounted(setup, actions);
    CountTasks(setup, s, c);
  }

  lemma CountTasks(setup: Setup, s: State, c: nat)
    requires Inv(setup, s) && LedgerInv(s)
    ensures |TasksOf(s, c)| == |AcksOf(s, c)| + |DirectOf(s, c)| + |GivenUpOn(s, c)| + |Awaited(s, c)|
  {
    hide Agent.Inv, Service.Inv, PendingInv, ReceiptInv, LedgerInv, About, RowOf, Consumed, Pending, Service.Enqueued;
    TasksArePartitioned(setup, s, c);
    AckTasksSize(s, AcksOf(s, c));
    TasksBehindSize(s, GivenUpOn(s, c));
    TasksBehindSize(s, Awaited(s, c));
    hide TasksOf, AckTasks, TasksBehind, GivenUpOn, Awaited, AcksOf;
  }

  /** And each of them is a task with this payload, for the agent's tenant. */
  lemma TasksHoldThePayload(setup: Setup, actions: seq<Action>, c: nat, i: nat)
    requires i in TasksOf(Run(setup, Initial(setup), actions), c)
    ensures var s := Run(setup, Initial(setup), actions);
            && c in s.agent.threads && FlushTheorems.Transmitting(s.agent.threads[c])
            && s.service.accepted[i].task == Service.Task(setup.tenant, s.agent.threads[c].payload)
  {
    EveryRunIsAccounted(setup, actions);
    TaskHoldsPayload(setup, Run(setup, Initial(setup), actions), c, i);
  }

  lemma TaskHoldsPayload(setup: Setup, s: State, c: nat, i: nat)
    requires FullInv(setup, s) && i in TasksOf(s, c)
    ensures c in s.agent.threads && FlushTheorems.Transmitting(s.agent.threads[c])
    ensures s.service.accepted[i].task == Service.Task(setup.tenant, s.agent.threads[c].payload)
  {
    hide Service.ChannelInv, Service.TicketInv, PendingInv, ReceiptInv, DistinctInv, LedgerInv, FlushRepeats.RepeatInv;
    hide Agent.AckInv, Agent.AckedUpTo;
    var h := s.service.accepted[i].handler;
    var body :| SentWith(setup, s, h, body);
    AcceptedWas202(setup, s, i);
    var j :| 0 <= j < |s.service.accepted|
             && s.service.accepted[j] == Service.Accepted(Service.Task(setup.tenant, body), h);
    assert i == j;
    if s.sent[h].OfRow? {
      var th := s.agent.threads[c];
      assert Agent.ThreadOk(s.agent.history, Agent.Acked(s.agent.acks), Agent.Released(s.agent), th);
      PipelineTheorems.StoredOnce(s.agent.history, th.id, th.payload, body);
    }
  }

  // ----- exactly once, at most once -----

  /** A request that a call is waiting for is its own, or for a row that a flush is posting. */
  lemma AwaitedBy(s: State, c: nat, h: nat) returns (t: nat)
    requires LedgerInv(s) && h in Awaited(s, c)
    ensures WaitsFor(s, t, h) && t in s.agent.threads
    ensures if s.agent.threads[t].Sending? then t == c else
            && s.agent.threads[t].Posting? && |s.agent.threads[t].flushed| < |s.agent.threads[t].snapshot|
            && RowOf(s, c, s.agent.threads[t].snapshot[|s.agent.threads[t].flushed|].id)
  {
    hide AnswerRecorded, ReceiptsAreAnswers, GivenUp;
    t :| WaitsFor(s, t, h);
    assert WaitsRightly(s, t);
  }

  lemma NothingMoreOfDelivered(s: State, c: nat)
    requires LedgerInv(s) && c in s.agent.threads && s.agent.threads[c].Delivered?
    ensures AcksOf(s, c) == {} && GivenUpOn(s, c) == {} && Awaited(s, c) == {}
  {
    forall h: nat ensures h !in Awaited(s, c) {
      if h in Awaited(s, c) {
        var t := AwaitedBy(s, c, h);
      }
    }
  }

  /** A payload that was delivered at once is in the service exactly once, for ever. */
  lemma DeliveredExactlyOnce(setup: Setup, actions: seq<Action>, c: nat)
    requires var s := Run(setup, Initial(setup), actions); c in s.agent.threads && s.agent.threads[c].Delivered?
    ensures |TasksOf(Run(setup, Initial(setup), actions), c)| == 1
  {
    var s := Run(setup, Initial(setup), actions);
    EveryRunIsAccounted(setup, actions);
    CountTasks(setup, s, c);
    NothingMoreOfDelivered(s, c);
  }

  lemma AtMostOne(xs: set<nat>)
    requires forall x, y :: x in xs && y in xs ==> x == y
    ensures |xs| <= 1
  {
    if xs != {} {
      var x :| x in xs;
      assert xs == {x};
    }
  }

  ghost predicate Orderly(s: State) {
    s.agent.overlaps == {} && forall f :: !FlushRepeats.LeftBehind(s.agent, f)
  }

  lemma OrderlyAcks(s: State, c: nat)
    requires Orderly(s) && FlushRepeats.RepeatInv(s.agent)
    ensures |AcksOf(s, c)| <= 1
  {
    AtMostOne(AcksOf(s, c));
  }

  lemma OrderlyAwaited(s: State, c: nat)
    requires Orderly(s) && FlushRepeats.RepeatInv(s.agent) && LedgerInv(s)
    ensures |Awaited(s, c)| <= 1
    ensures AcksOf(s, c) != {} ==> Awaited(s, c) == {}
  {
    hide LedgerInv;
    forall g, h | g in Awaited(s, c) && h in Awaited(s, c) ensures g == h {
      var t := AwaitedBy(s, c, g);
      var u := AwaitedBy(s, c, h);
      assert t != u ==> FlushRepeats.Overlapped(s.agent, t, u);
    }
    AtMostOne(Awaited(s, c));
    if AcksOf(s, c) != {} {
      var k :| k in AcksOf(s, c);
      forall h: nat ensures h !in Awaited(s, c) {
        if h in Awaited(s, c) {
          var t := AwaitedBy(s, c, h);
          assert false;
        }
      }
    }
  }

  /** In an orderly run a payload has one task beside those of requests that were given up, or none. */
  lemma OrderlyCount(setup: Setup, s: State, c: nat)
    requires FullInv(setup, s) && Orderly(s)
    ensures |GivenUpOn(s, c)| <= |TasksOf(s, c)| <= |GivenUpOn(s, c)| + 1
    ensures c in s.direct || AcksOf(s, c) != {} ==> |TasksOf(s, c)| == |GivenUpOn(s, c)| + 1
  {
    hide Inv, LedgerInv, TasksOf, AcksOf, GivenUpOn, Awaited;
    CountTasks(setup, s, c);
    OrderlyAcks(s, c);
    OrderlyAwaited(s, c);
    if c in s.direct {
      DirectIsDelivered(setup, s, c);
      NothingMoreOfDelivered(s, c);
    }
  }

  /**
    At most once, up to lost answers. When no two flushes overlapped, none returned on cancellation
    and every delete was committed, a payload becomes at most one task more than the accepted
    requests for it that the agent gave up on, and no fewer; without such requests, at most one.
   */
  lemma AtMostOnceUpToLostAnswers(setup: Setup, actions: seq<Action>, c: nat)
    requires Orderly(Run(setup, Initial(setup), actions))
    ensures var s := Run(setup, Initial(setup), actions);
            |GivenUpOn(s, c)| <= |TasksOf(s, c)| <= |GivenUpOn(s, c)| + 1
  {
    EveryRunIsAccounted(setup, actions);
    OrderlyCount(setup, Run(setup, Initial(setup), actions), c);
  }

  /** And a payload that got its 2xx is in the service exactly once if and only if the agent never
      gave up on a request for it that the service had accepted. */
  lemma ExactlyOnceWhenNoAnswerWasLost(setup: Setup, actions: seq<Action>, c: nat)
    requires var s := Run(setup, Initial(setup), actions); Orderly(s) && (c in s.direct || AcksOf(s, c) != {})
    ensures var s := Run(setup, Initial(setup), actions);
            |TasksOf(s, c)| == 1 <==> GivenUpOn(s, c) == {}
  {
    EveryRunIsAccounted(setup, actions);
    OrderlyCount(setup, Run(setup, Initial(setup), actions), c);
    hide FullInv, Orderly, TasksOf, AcksOf, GivenUpOn;
  }

  lemma DirectIsDelivered(setup: Setup, s: State, c: nat)
    requires Inv(setup, s) && c in s.direct
    ensures c in s.agent.threads && s.agent.threads[c].Delivered?
  {
    hide Agent.Inv, Service.Inv, PendingInv, DistinctInv;
  }
}
