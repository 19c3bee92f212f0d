/**
  How often the service gets one payload. Every request the agent makes is accounted for: its task
  is behind a 2xx the agent received, or the agent still waits for the answer, or it gave up on it.
 */
module Deliveries {
  import Agent = FlushSystem
  import Service = Ingestion
  import opened Pipeline

  predicate WaitsFor(s: State, t: nat, h: nat) {
    t in s.pending && s.pending[t] == h
  }

  ghost predicate Pending(s: State, h: nat) {
    exists t: nat :: WaitsFor(s, t, h)
  }

  /** Acknowledgement k is the answer to request h. */
  predicate AckAnswers(s: State, k: int, h: nat) {
    && 0 <= k < |s.ackTickets| && k < |s.agent.acks|
    && s.ackTickets[k] < |s.service.accepted| && s.service.accepted[s.ackTickets[k]].handler == h
    && h in s.sent && s.sent[h] == OfRow(s.agent.acks[k].id, s.agent.acks[k].flush)
  }

  /** The 2xx that call t got directly is the answer to request h. */
  predicate DirectAnswers(s: State, t: nat, h: nat) {
    && t in s.direct
    && s.direct[t] < |s.service.accepted| && s.service.accepted[s.direct[t]].handler == h
    && h in s.sent && s.sent[h] == OfCall(t)
  }

  ghost predicate Acknowledged(s: State, h: nat) {
    exists k :: AckAnswers(s, k, h)
  }

  ghost predicate AnsweredDirectly(s: State, h: nat) {
    exists t: nat :: DirectAnswers(s, t, h)
  }

  predicate Met(service: Service.State, h: nat) {
    h in service.handlers || h in service.replies
  }

  ghost predicate RequestsMet(s: State) {
    && (forall h :: h in s.sent ==> Met(s.service, h))
    && (forall h :: h in s.abandoned ==> h in s.sent)
  }

  /** A pending request is for what its call is doing, and was not given up. */
  predicate WaitsRightly(s: State, t: nat)
    requires t in s.pending
  {
    && Body(s.agent, t).Some?
    && s.pending[t] in s.sent && s.sent[s.pending[t]] == OriginOf(s.agent, t)
    && s.pending[t] !in s.abandoned
  }

  /** A request that is neither pending nor given up was answered, and if with 202, then the answer
      was recorded. */
  ghost predicate AnswerRecorded(s: State, h: nat)
    requires h in s.sent
  {
    h in s.abandoned || Pending(s, h) ||
    (h in s.service.replies
     && (s.service.replies[h] == Service.ACCEPTED ==> Acknowledged(s, h) || AnsweredDirectly(s, h)))
  }

  predicate AckIsAnswer(s: State, k: nat)
    requires k < |s.ackTickets|
  {
    && s.ackTickets[k] < |s.service.accepted|
    && var h := s.service.accepted[s.ackTickets[k]].handler;
       h !in s.abandoned && AckAnswers(s, k, h)
  }

  predicate DirectIsAnswer(s: State, t: nat)
    requires t in s.direct
  {
    && s.direct[t] < |s.service.accepted|
    && var h := s.service.accepted[s.direct[t]].handler;
       h !in s.abandoned && DirectAnswers(s, t, h)
  }

  /** Every recorded 2xx is the answer to a request that was made and not given up. */
  ghost predicate ReceiptsAreAnswers(s: State) {
    && |s.ackTickets| == |s.agent.acks|
    && (forall k :: 0 <= k < |s.ackTickets| ==> AckIsAnswer(s, k))
    && (forall t :: t in s.direct ==> DirectIsAnswer(s, t))
  }

  /** A call that was answered directly gave up on no request. */
  ghost predicate GivenUp(s: State) {
    forall h :: h in s.abandoned && h in s.sent && s.sent[h].OfCall? ==>
      var t := s.sent[h].call;
      t in s.agent.threads && !s.agent.threads[t].Sending? && !s.agent.threads[t].Delivered?
  }

  ghost predicate LedgerInv(s: State) {
    && RequestsMet(s)
    && (forall t :: t in s.pending ==> WaitsRightly(s, t))
    && (forall h :: h in s.sent ==> AnswerRecorded(s, h))
    && ReceiptsAreAnswers(s)
    && GivenUp(s)
  }

  // ----- steps -----

  /** The records of answered requests survive when everything they mention does. */
  lemma RecordedStable(s: State, s': State, h: nat)
    requires h in s.sent && h in s'.sent && s'.sent[h] == s.sent[h]
    requires s.ackTickets <= s'.ackTickets && s.agent.acks <= s'.agent.acks && s.service.accepted <= s'.service.accepted
    requires forall t :: t in s.direct ==> t in s'.direct && s'.direct[t] == s.direct[t]
    ensures Acknowledged(s, h) ==> Acknowledged(s', h)
    ensures AnsweredDirectly(s, h) ==> AnsweredDirectly(s', h)
  {
    if Acknowledged(s, h) {
      var k :| AckAnswers(s, k, h);
      assert AckAnswers(s', k, h);
    }
    if AnsweredDirectly(s, h) {
      var t: nat :| DirectAnswers(s, t, h);
      assert DirectAnswers(s', t, h);
    }
  }

  lemma ReceiptsStable(s: State, s': State)
    requires ReceiptsAreAnswers(s)
    requires s'.ackTickets == s.ackTickets && s'.direct == s.direct && s'.agent.acks == s.agent.acks
    requires s.service.accepted <= s'.service.accepted && s'.abandoned == s.abandoned
    requires forall h :: h in s.sent ==> h in s'.sent && s'.sent[h] == s.sent[h]
    ensures ReceiptsAreAnswers(s')
  {
    forall k | 0 <= k < |s'.ackTickets| ensures AckIsAnswer(s', k) {
      assert AckIsAnswer(s, k);
    }
    forall t | t in s'.direct ensures DirectIsAnswer(s', t) {
      assert DirectIsAnswer(s, t);
    }
  }

  lemma PendingStable(s: State, s': State, h: nat)
    requires Pending(s, h) && forall t :: t in s.pending ==> t in s'.pending && s'.pending[t] == s.pending[t]
    ensures Pending(s', h)
  {
    var t: nat :| WaitsFor(s, t, h);
    assert WaitsFor(s', t, h);
  }

  lemma LocalKeepsOrigins(s: State, local: Agent.Action, t: nat)
    requires Local(s, local) && t in s.pending && Body(s.agent, t).Some?
    ensures Body(Agent.Step(s.agent, local), t).Some?
    ensures OriginOf(Agent.Step(s.agent, local), t) == OriginOf(s.agent, t)
  {
  }

  lemma LocalKeepsGivenUp(s: State, local: Agent.Action)
    requires Local(s, local) && GivenUp(s)
    ensures GivenUp(s.(agent := Agent.Step(s.agent, local)))
  {
  }

  lemma AgentStepKeepsLedger(setup: Setup, s: State, local: Agent.Action)
    requires Inv(setup, s) && LedgerInv(s) && Local(s, local)
    ensures LedgerInv(Step(setup, s, AgentStep(local)))
  {
    hide Inv, Agent.Step, AckAnswers, DirectAnswers, GivenUp, OriginOf, Body;
    var s' := Step(setup, s, AgentStep(local));
    LocalKeepsOutcomes(s, local);
    LocalKeepsGivenUp(s, local);
    ReceiptsStable(s, s');
    forall t | t in s'.pending ensures WaitsRightly(s', t) {
      assert WaitsRightly(s, t);
      LocalKeepsOrigins(s, local, t);
    }
    forall h | h in s'.sent ensures AnswerRecorded(s', h) {
      assert AnswerRecorded(s, h);
      KeptRecord(s, s', h);
    }
  }

  /** Nothing about request h has changed. */
  lemma KeptRecord(s: State, s': State, h: nat)
    requires h in s.sent && AnswerRecorded(s, h) && h in s'.sent && s'.sent[h] == s.sent[h]
    requires s.ackTickets <= s'.ackTickets && s.agent.acks <= s'.agent.acks && s.service.accepted <= s'.service.accepted
    requires forall t :: t in s.direct ==> t in s'.direct && s'.direct[t] == s.direct[t]
    requires h in s.service.replies ==> h in s'.service.replies && s'.service.replies[h] == s.service.replies[h]
    requires forall t :: WaitsFor(s, t, h) ==> WaitsFor(s', t, h)
    requires h in s.abandoned ==> h in s'.abandoned
    ensures AnswerRecorded(s', h)
  {
    RecordedStable(s, s', h);
    if Pending(s, h) {
      var t: nat :| WaitsFor(s, t, h);
      assert WaitsFor(s', t, h);
    }
  }

  /** The service forgets no request and never changes an answer. */
  lemma ServiceKeepsAnswers(setup: Setup, service: Service.State, remote: Service.Action, h: nat)
    requires Service.Inv(service) && Met(service, h)
    ensures var service' := Service.Step(setup.cfg, service, remote);
            && Met(service', h)
            && (h in service.replies ==> h in service'.replies && service'.replies[h] == service.replies[h])
  {
    hide Service.Process, Service.ChannelInv, Service.TicketInv;
  }

  lemma ServiceStepKeepsLedger(setup: Setup, s: State, remote: Service.Action)
    requires Inv(setup, s) && LedgerInv(s)
    ensures LedgerInv(Step(setup, s, ServiceStep(remote)))
  {
    hide Agent.Inv, Service.Inv, PendingInv, ReceiptInv, DistinctInv, Service.Step, GivenUp, OriginOf, Body;
    hide AckAnswers, DirectAnswers;
    var s' := Step(setup, s, ServiceStep(remote));
    Service.StepKeepsInv(setup.cfg, s.service, remote);
    ReceiptsStable(s, s');
    forall t | t in s'.pending ensures WaitsRightly(s', t) {
      assert WaitsRightly(s, t);
    }
    forall h | h in s'.sent ensures Met(s'.service, h) && AnswerRecorded(s', h) {
      ServiceKeepsAnswers(setup, s.service, remote, h);
      assert AnswerRecorded(s, h);
      KeptRecord(s, s', h);
    }
    GivenUpStable(s, s');
  }

  lemma GivenUpStable(s: State, s': State)
    requires GivenUp(s) && s'.agent.threads == s.agent.threads && s'.abandoned == s.abandoned
    requires forall h :: h in s.abandoned ==> h in s.sent && h in s'.sent && s'.sent[h] == s.sent[h]
    ensures GivenUp(s')
  {
  }

  lemma SendKeepsRecords(setup: Setup, s: State, t: nat, h: nat, x: nat)
    requires Inv(setup, s) && LedgerInv(s) && Enabled(s, Send(t, h))
    requires x in Step(setup, s, Send(t, h)).sent
    ensures Met(Step(setup, s, Send(t, h)).service, x) && AnswerRecorded(Step(setup, s, Send(t, h)), x)
  {
    hide Inv, GivenUp, ReceiptsAreAnswers, WaitsRightly, OriginOf, Acknowledged, AnsweredDirectly;
    var s' := Step(setup, s, Send(t, h));
    if x == h {
      assert WaitsFor(s', t, h);
    } else {
      assert Met(s.service, x) && AnswerRecorded(s, x);
      KeptRecord(s, s', x);
    }
  }

  lemma SendKeepsLedger(setup: Setup, s: State, t: nat, h: nat)
    requires Inv(setup, s) && LedgerInv(s) && Enabled(s, Send(t, h))
    ensures LedgerInv(Step(setup, s, Send(t, h)))
  {
    hide Inv, GivenUp, OriginOf, ReceiptsAreAnswers, AnswerRecorded;
    var s' := Step(setup, s, Send(t, h));
    assert h !in s.sent;
    ReceiptsStable(s, s');
    GivenUpStable(s, s');
    forall u | u in s'.pending ensures WaitsRightly(s', u) {
      assert u != t ==> WaitsRightly(s, u);
    }
    forall x | x in s'.sent ensures Met(s'.service, x) && AnswerRecorded(s', x) {
      SendKeepsRecords(setup, s, t, h, x);
    }
  }

  // ----- answers -----

  lemma OthersStillWait(s: State, s': State, t: nat, reply: Agent.Reply)
    requires forall u :: u in s.pending ==> WaitsRightly(s, u)
    requires s'.sent == s.sent && s'.agent == ReplyTo(s.agent, t, reply) && s'.pending == s.pending - {t}
    requires forall h :: h in s'.abandoned && h !in s.abandoned ==> WaitsFor(s, t, h)
    requires forall u, v :: u in s.pending && v in s.pending && u != v ==> s.pending[u] != s.pending[v]
    ensures forall u :: u in s'.pending ==> WaitsRightly(s', u)
  {
    hide ReplyTo;
    forall u | u in s'.pending ensures WaitsRightly(s', u) {
      assert WaitsRightly(s, u);
      ReplyKeepsOthers(s.agent, t, reply, u);
    }
  }

  lemma FailKeepsLedger(setup: Setup, s: State, t: nat, reply: Agent.Reply)
    requires Inv(setup, s) && LedgerInv(s) && Enabled(s, Fail(t, reply))
    ensures LedgerInv(Step(setup, s, Fail(t, reply)))
  {
    hide Agent.Inv, Service.Inv, ReceiptInv, GivenUp, ReplyTo, AckAnswers, DirectAnswers, Requested;
    var s' := Step(setup, s, Fail(t, reply));
    ReplyOutcome(s.agent, t, reply);
    OthersStillWait(s, s', t, reply);
    FailKeepsReceipts(setup, s, t, reply);
    FailKeepsGivenUp(setup, s, t, reply);
    forall h | h in s'.sent ensures AnswerRecorded(s', h) {
      assert AnswerRecorded(s, h);
      if WaitsFor(s, t, h) {
        assert h in s'.abandoned;
      } else {
        KeptRecord(s, s', h);
      }
    }
  }

  lemma FailKeepsReceipts(setup: Setup, s: State, t: nat, reply: Agent.Reply)
    requires Inv(setup, s) && LedgerInv(s) && Enabled(s, Fail(t, reply))
    ensures ReceiptsAreAnswers(Step(setup, s, Fail(t, reply)))
  {
    hide Agent.Inv, Service.Inv, PendingInv, ReceiptInv, ReplyTo;
    var s' := Step(setup, s, Fail(t, reply));
    ReplyOutcome(s.agent, t, reply);
    forall k | 0 <= k < |s'.ackTickets| ensures AckIsAnswer(s', k) {
      assert AckIsAnswer(s, k) && Consumed(s, s.ackTickets[k]);
    }
    forall u | u in s'.direct ensures DirectIsAnswer(s', u) {
      assert DirectIsAnswer(s, u) && Consumed(s, s.direct[u]);
    }
  }

  lemma FailKeepsGivenUp(setup: Setup, s: State, t: nat, reply: Agent.Reply)
    requires LedgerInv(s) && Enabled(s, Fail(t, reply))
    ensures GivenUp(Step(setup, s, Fail(t, reply)))
  {
    assert t in s.pending ==> WaitsRightly(s, t);
    hide AnswerRecorded, ReceiptsAreAnswers;
  }

  lemma AnswerKeepsGivenUp(s: State, t: nat)
    requires LedgerInv(s) && Enabled(s, Answer(t))
    ensures GivenUp(AnswerStep(s, t))
  {
    assert WaitsRightly(s, t);
    hide AnswerRecorded, ReceiptsAreAnswers, TicketOf;
  }

  lemma DirectIsRecorded(setup: Setup, s: State, s': State, t: nat, ticket: nat)
    requires ReceiptsAreAnswers(s) && t in s.pending && WaitsRightly(s, t) && s.agent.threads[t].Sending?
    requires Answers(setup, s, t, ticket)
    requires s'.service == s.service && s'.sent == s.sent && s'.abandoned == s.abandoned
    requires s'.ackTickets == s.ackTickets && s'.agent.acks == s.agent.acks && s'.direct == s.direct[t := ticket]
    ensures ReceiptsAreAnswers(s') && AnsweredDirectly(s', s.pending[t])
  {
    assert DirectAnswers(s', t, s.pending[t]);
    forall k | 0 <= k < |s'.ackTickets| ensures AckIsAnswer(s', k) {
      assert AckIsAnswer(s, k);
    }
    forall u | u in s'.direct ensures DirectIsAnswer(s', u) {
      assert u != t ==> DirectIsAnswer(s, u);
    }
  }

  lemma CachedIsRecorded(setup: Setup, s: State, s': State, t: nat, ticket: nat)
    requires ReceiptsAreAnswers(s) && t in s.pending && WaitsRightly(s, t) && s.agent.threads[t].Posting?
    requires Answers(setup, s, t, ticket)
    requires s'.service == s.service && s'.sent == s.sent && s'.abandoned == s.abandoned && s'.direct == s.direct
    requires s'.ackTickets == s.ackTickets + [ticket]
    requires var th := s.agent.threads[t]; s'.agent.acks == s.agent.acks + [Agent.Ack(th.snapshot[|th.flushed|].id, t)]
    ensures ReceiptsAreAnswers(s') && Acknowledged(s', s.pending[t])
  {
    assert AckAnswers(s', |s.ackTickets|, s.pending[t]);
    forall k | 0 <= k < |s'.ackTickets| ensures AckIsAnswer(s', k) {
      assert k < |s.ackTickets| ==> AckIsAnswer(s, k);
    }
    forall u | u in s'.direct ensures DirectIsAnswer(s', u) {
      assert DirectIsAnswer(s, u);
    }
  }

  lemma RefusalIsNoReceipt(s: State, t: nat)
    requires ReceiptsAreAnswers(s) && Enabled(s, Answer(t)) && Body(s.agent, t).Some?
    requires !Agent.Acknowledges(Agent.Status(s.service.replies[s.pending[t]]))
    ensures ReceiptsAreAnswers(AnswerStep(s, t))
  {
    hide ReplyTo, TicketOf, ReceiptsAreAnswers;
    ReplyOutcome(s.agent, t, Agent.Status(s.service.replies[s.pending[t]]));
    ReceiptsStable(s, AnswerStep(s, t));
  }

  /** Only 202 is a 2xx among the service's answers. */
  lemma OnlyAcceptedAcknowledges(service: Service.State, h: nat)
    requires Service.Inv(service) && h in service.replies
    ensures Agent.Acknowledges(Agent.Status(service.replies[h])) <==> service.replies[h] == Service.ACCEPTED
  {
    hide Service.ChannelInv, Service.TicketInv;
  }

  lemma AnswerKeepsReceipts(setup: Setup, s: State, t: nat)
    requires Inv(setup, s) && LedgerInv(s) && Enabled(s, Answer(t))
    ensures ReceiptsAreAnswers(AnswerStep(s, t))
    ensures var h := s.pending[t];
            s.service.replies[h] == Service.ACCEPTED ==>
              Acknowledged(AnswerStep(s, t), h) || AnsweredDirectly(AnswerStep(s, t), h)
  {
    hide Agent.Inv, Service.Inv, PendingInv, ReceiptInv, DistinctInv, TicketOf, ReplyTo, AnswerRecorded, GivenUp;
    hide ReceiptsAreAnswers, AnswerStep, Acknowledged, AnsweredDirectly;
    var s', h := AnswerStep(s, t), s.pending[t];
    assert WaitsRightly(s, t);
    AnswerFrame(setup, s, t);
    OnlyAcceptedAcknowledges(s.service, h);
    if s.service.replies[h] != Service.ACCEPTED {
      RefusalIsNoReceipt(s, t);
    } else {
      AnsweredTicket(setup, s, t);
      if s.agent.threads[t].Sending? {
        DirectEffect(s, t);
        DirectIsRecorded(setup, s, s', t, TicketOf(s.service.accepted, h));
      } else {
        CachedEffect(s, t);
        CachedIsRecorded(setup, s, s', t, TicketOf(s.service.accepted, h));
      }
    }
  }

  /** What an answer leaves alone. */
  lemma AnswerFrame(setup: Setup, s: State, t: nat)
    requires Inv(setup, s) && Enabled(s, Answer(t))
    ensures var s' := AnswerStep(s, t);
            var reply := Agent.Status(s.service.replies[s.pending[t]]);
            && s'.service == s.service && s'.sent == s.sent && s'.abandoned == s.abandoned
            && s'.agent == ReplyTo(s.agent, t, reply) && s'.pending == s.pending - {t}
            && s.ackTickets <= s'.ackTickets && s.agent.acks <= s'.agent.acks
            && forall u :: u in s.direct ==> u in s'.direct && s'.direct[u] == s.direct[u]
  {
    hide Agent.Inv, Service.Inv, DistinctInv, AckReceipt, ReplyTo, TicketOf, Requested;
    var reply := Agent.Status(s.service.replies[s.pending[t]]);
    ReplyOutcome(s.agent, t, reply);
  }

  lemma AnswerKeepsRecords(setup: Setup, s: State, t: nat, h: nat)
    requires Inv(setup, s) && LedgerInv(s) && Enabled(s, Answer(t)) && h in s.sent
    ensures h in AnswerStep(s, t).sent && AnswerRecorded(AnswerStep(s, t), h)
  {
    hide Inv, GivenUp, ReceiptsAreAnswers, AnswerStep, ReplyTo, WaitsRightly, Body, Acknowledged, AnsweredDirectly;
    var s' := AnswerStep(s, t);
    AnswerFrame(setup, s, t);
    AnswerKeepsReceipts(setup, s, t);
    assert AnswerRecorded(s, h);
    if !WaitsFor(s, t, h) {
      KeptRecord(s, s', h);
    }
  }

  lemma AnswerKeepsLedger(setup: Setup, s: State, t: nat)
    requires Inv(setup, s) && LedgerInv(s) && Enabled(s, Answer(t))
    ensures LedgerInv(Step(setup, s, Answer(t)))
  {
    hide Agent.Inv, Service.Inv, ReceiptInv, DistinctInv, GivenUp, ReceiptsAreAnswers, AnswerRecorded, Requested;
    hide AnswerStep, ReplyTo, WaitsRightly, Body, Acknowledged, AnsweredDirectly;
    var s' := AnswerStep(s, t);
    AnswerFrame(setup, s, t);
    AnswerKeepsReceipts(setup, s, t);
    AnswerKeepsGivenUp(s, t);
    OthersStillWait(s, s', t, Agent.Status(s.service.replies[s.pending[t]]));
    forall h | h in s'.sent ensures AnswerRecorded(s', h) {
      AnswerKeepsRecords(setup, s, t, h);
    }
  }

  lemma StepKeepsLedger(setup: Setup, s: State, a: Action)
    requires Inv(setup, s) && LedgerInv(s)
    ensures LedgerInv(Step(setup, s, a))
  {
    hide Inv, LedgerInv;
    if Enabled(s, a) {
      match a {
        case AgentStep(local) => AgentStepKeepsLedger(setup, s, local);
        case Send(t, h) => SendKeepsLedger(setup, s, t, h);
        case ServiceStep(remote) => ServiceStepKeepsLedger(setup, s, remote);
        case Answer(t) => AnswerKeepsLedger(setup, s, t);
        case Fail(t, reply) => FailKeepsLedger(setup, s, t, reply);
      }
    }
  }

  lemma {:induction false} RunKeepsLedger(setup: Setup, s: State, actions: seq<Action>)
    requires Inv(setup, s) && LedgerInv(s)
    ensures Inv(setup, Run(setup, s, actions)) && LedgerInv(Run(setup, s, actions))
    decreases |actions|
  {
    hide Inv, LedgerInv, Step;
    if actions != [] {
      StepKeepsInv(setup, s, actions[0]);
      StepKeepsLedger(setup, s, actions[0]);
      RunKeepsLedger(setup, Step(setup, s, actions[0]), actions[1..]);
    }
  }
}
