/**
  The ingestion service as a concurrent system: HTTP handlers offer tasks to a bounded channel
  without blocking, a fixed pool of workers takes and processes them, and shutdown first waits
  for the handlers, then cancels the workers, then closes the channel. Each accepted task gets a
  ticket: its position in the order of acceptance. A worker's save is one atomic step, which
  loses nothing because every interleaving of transactions is serializable in commit order.
 */
module Ingestion {
  import opened Wrappers
  import TenantDb
  import Repository

  datatype Task = Task(tenant: string, payload: string)

  datatype Metadata = Metadata(deviceUuid: string, hostname: string)

  /** JSON decoding (of the payload's metadata) and the cast to UUID, and whether there is a database. */
  datatype Config = Config(decode: string -> Option<Metadata>, cast: TenantDb.Cast, hasRepo: bool)

  datatype Worker = Idle | Busy(ticket: nat) | Exited

  datatype Verdict = BadJson | NoDeviceId | DryRun | SaveFailed | Persisted

  /** `saved` says whether the task's row was committed, which a failed save may have been too. */
  datatype Processed = Processed(ticket: nat, verdict: Verdict, saved: bool)

  datatype Outcome = Outcome(verdict: Verdict, saved: bool, db: TenantDb.Db)

  datatype Accepted = Accepted(task: Task, handler: nat)

  datatype Handler = Handler(tenant: string, body: string)

  datatype State = State(
    capacity: nat,
    queue: seq<nat>,
    workers: seq<Worker>,
    handlers: map<nat, Handler>,
    replies: map<nat, int>,
    accepted: seq<Accepted>,
    processed: seq<Processed>,
    db: TenantDb.Db,
    draining: bool,
    cancelled: bool,
    closed: bool,
    panicked: bool)

  function NewService(workers: int, bufferSize: int): State {
    State(if bufferSize <= 0 then 1000 else bufferSize, [],
          seq(if workers <= 0 then 50 else workers, _ => Idle),
          map[], map[], [], [], TenantDb.Db(map[], map[]), false, false, false, false)
  }

  datatype Action =
    | Receive(h: nat, tenant: string, body: string)
    | Offer(h: nat, readFails: bool)
    | Take(w: nat)
    | Finish(w: nat, now: int, fault: Repository.Fault)
    | Exit(w: nat)
    | RegisterTenant(id: TenantDb.Uuid, name: string)
    | Shutdown
    | Cancel
    | CloseChannel

  const ACCEPTED := 202
  const BAD_REQUEST := 400
  const SATURATED := 503

  predicate Enabled(s: State, a: Action) {
    match a
    case Receive(h, _, _) => !s.draining && h !in s.handlers && h !in s.replies
    case Offer(h, _) => h in s.handlers
    case Take(w) => w < |s.workers| && s.workers[w].Idle? && s.queue != []
    case Finish(w, _, _) => w < |s.workers| && s.workers[w].Busy? && s.workers[w].ticket < |s.accepted|
    case Exit(w) => w < |s.workers| && s.workers[w].Idle? && (s.cancelled || (s.closed && s.queue == []))
    case RegisterTenant(_, _) => true
    case Shutdown => !s.draining
    case Cancel => s.draining && s.handlers == map[] && !s.cancelled
    case CloseChannel => s.cancelled && !s.closed
  }

  function DeviceId(m: Metadata): string {
    if m.deviceUuid == "" then m.hostname else m.deviceUuid
  }

  /** What processing one task does to the database, and how it ends. */
  function Process(cfg: Config, db: TenantDb.Db, task: Task, now: int, fault: Repository.Fault): Outcome {
    match cfg.decode(task.payload)
    case None => Outcome(BadJson, false, db)
    case Some(m) =>
      if DeviceId(m) == "" then Outcome(NoDeviceId, false, db)
      else if !cfg.hasRepo then Outcome(DryRun, false, db)
      else
        var op := TenantDb.SaveDevice(DeviceId(m), m.hostname, task.payload, now);
        var effect := TenantDb.WriteStatement(db, Some(task.tenant), task.tenant, op, cfg.cast);
        if effect.Error? then Outcome(SaveFailed, false, db)
        else if fault.NoFault? then Outcome(Persisted, true, TenantDb.Commit(db, effect))
        else if fault.CommitUnanswered? then Outcome(SaveFailed, true, TenantDb.Commit(db, effect))
        else Outcome(SaveFailed, false, db)
  }

  /** The handler's select: a send that does not block, on a channel that must not be closed. */
  function OfferStep(s: State, h: nat, readFails: bool): State
    requires h in s.handlers
  {
    var r := s.handlers[h];
    var s1 := s.(handlers := s.handlers - {h});
    if r.tenant == "" || readFails || r.body == "" then s1.(replies := s.replies[h := BAD_REQUEST])
    else if s.closed then s1.(panicked := true)
    else if |s.queue| < s.capacity then
      s1.(replies := s.replies[h := ACCEPTED],
          queue := s.queue + [|s.accepted|],
          accepted := s.accepted + [Accepted(Task(r.tenant, r.body), h)])
    else s1.(replies := s.replies[h := SATURATED])
  }

  function Step(cfg: Config, s: State, a: Action): State {
    if !Enabled(s, a) then s else
    match a
    case Receive(h, tenant, body) => s.(handlers := s.handlers[h := Handler(tenant, body)])
    case Offer(h, readFails) => OfferStep(s, h, readFails)
    case Take(w) => s.(workers := s.workers[w := Busy(s.queue[0])], queue := s.queue[1..])
    case Finish(w, now, fault) =>
      var ticket := s.workers[w].ticket;
      var o := Process(cfg, s.db, s.accepted[ticket].task, now, fault);
      s.(workers := s.workers[w := Idle],
         processed := s.processed + [Processed(ticket, o.verdict, o.saved)],
         db := o.db)
    case Exit(w) => s.(workers := s.workers[w := Exited])
    case RegisterTenant(id, name) => s.(db := s.db.(tenants := s.db.tenants[id := name]))
    case Shutdown => s.(draining := true)
    case Cancel => s.(cancelled := true)
    case CloseChannel => s.(closed := true)
  }

  function Run(cfg: Config, s: State, actions: seq<Action>): State
    decreases |actions|
  {
    if actions == [] then s else Run(cfg, Step(cfg, s, actions[0]), actions[1..])
  }

  // ----- every ticket is in exactly one place -----

  function Taken(s: State): int {
    |s.accepted| - |s.queue|
  }

  ghost function Held(workers: seq<Worker>): set<nat> {
    set w | 0 <= w < |workers| && workers[w].Busy? :: workers[w].ticket
  }

  ghost function Done(processed: seq<Processed>): set<nat> {
    set k | 0 <= k < |processed| :: processed[k].ticket
  }

  /** The channel holds the latest tickets, in order, and no more than its buffer. */
  ghost predicate ChannelInv(s: State) {
    && 1 <= s.capacity && |s.queue| <= s.capacity
    && 0 <= Taken(s)
    && forall j :: 0 <= j < |s.queue| ==> s.queue[j] == Taken(s) + j
  }

  /** The tickets that left the channel are held by one worker each or were processed, once. */
  ghost predicate TicketInv(s: State) {
    && (forall i, j :: 0 <= i < j < |s.workers| && s.workers[i].Busy? && s.workers[j].Busy?
                       ==> s.workers[i].ticket != s.workers[j].ticket)
    && (forall i, j :: 0 <= i < j < |s.processed| ==> s.processed[i].ticket != s.processed[j].ticket)
    && Held(s.workers) !! Done(s.processed)
    && (forall t: nat :: t in Held(s.workers) || t in Done(s.processed) <==> t < Taken(s))
  }

  ghost predicate Enqueued(accepted: seq<Accepted>, h: nat) {
    exists i :: 0 <= i < |accepted| && accepted[i].handler == h
  }

  ghost predicate EnqueuedMeans202(s: State) {
    && (forall h :: h in s.handlers ==> h !in s.replies)
    && (forall h :: h in s.replies ==> s.replies[h] in {ACCEPTED, BAD_REQUEST, SATURATED})
    && (forall i :: 0 <= i < |s.accepted| ==>
        s.accepted[i].handler in s.replies && s.replies[s.accepted[i].handler] == ACCEPTED)
    && (forall i, j :: 0 <= i < j < |s.accepted| ==> s.accepted[i].handler != s.accepted[j].handler)
  }

  /** 202 is answered exactly to the requests whose task was enqueued. */
  ghost predicate ReplyInv(s: State) {
    && EnqueuedMeans202(s)
    && (forall h :: h in s.replies && s.replies[h] == ACCEPTED ==> Enqueued(s.accepted, h))
  }

  ghost predicate ShutdownInv(s: State) {
    && (s.closed ==> s.cancelled)
    && (s.cancelled ==> s.draining && s.handlers == map[])
    && !s.panicked
  }

  ghost predicate Inv(s: State) {
    ChannelInv(s) && TicketInv(s) && ReplyInv(s) && ShutdownInv(s)
  }

  lemma TakeKeepsTickets(cfg: Config, s: State, w: nat)
    requires ChannelInv(s) && TicketInv(s) && Enabled(s, Take(w))
    ensures TicketInv(Step(cfg, s, Take(w)))
  {
    var s' := Step(cfg, s, Take(w));
    var t := s.queue[0];
    assert t !in Held(s.workers) && t !in Done(s.processed);
    assert Held(s'.workers) == Held(s.workers) + {t} by {
      assert s'.workers[w].Busy?;
      forall v | 0 <= v < |s.workers| && s.workers[v].Busy? ensures s.workers[v].ticket in Held(s'.workers) {
        assert s'.workers[v] == s.workers[v];
      }
    }
  }

  lemma FinishKeepsTickets(cfg: Config, s: State, a: Action)
    requires ChannelInv(s) && TicketInv(s) && a.Finish? && Enabled(s, a)
    ensures TicketInv(Step(cfg, s, a))
  {
    hide Process;
    var s' := Step(cfg, s, a);
    var t := s.workers[a.w].ticket;
    assert t in Held(s.workers);
    assert Held(s'.workers) == Held(s.workers) - {t} by {
      forall v | 0 <= v < |s.workers| && s.workers[v].Busy? && v != a.w
        ensures s.workers[v].ticket in Held(s'.workers)
      {
        assert s'.workers[v] == s.workers[v];
      }
    }
    assert Done(s'.processed) == Done(s.processed) + {t} by {
      assert s'.processed[|s.processed|].ticket == t;
      forall k | 0 <= k < |s.processed| ensures s.processed[k].ticket in Done(s'.processed) {
        assert s'.processed[k] == s.processed[k];
      }
    }
  }

  lemma ExitKeepsTickets(cfg: Config, s: State, w: nat)
    requires TicketInv(s) && Enabled(s, Exit(w))
    ensures TicketInv(Step(cfg, s, Exit(w)))
  {
    var s' := Step(cfg, s, Exit(w));
    assert Held(s'.workers) == Held(s.workers) by {
      forall v | 0 <= v < |s.workers| && s.workers[v].Busy? ensures s.workers[v].ticket in Held(s'.workers) {
        assert s'.workers[v] == s.workers[v];
      }
    }
  }

  lemma EnqueuedGrows(accepted: seq<Accepted>, more: Accepted, h: nat)
    ensures Enqueued(accepted + [more], h) <==> Enqueued(accepted, h) || more.handler == h
  {
    var longer := accepted + [more];
    assert longer[|accepted|] == more;
    if Enqueued(accepted, h) {
      var i :| 0 <= i < |accepted| && accepted[i].handler == h;
      assert longer[i] == accepted[i];
    }
  }

  lemma RefusedMeans202(s: State, s': State, h: nat, status: int)
    requires EnqueuedMeans202(s) && h in s.handlers && status in {BAD_REQUEST, SATURATED}
    requires s'.handlers == s.handlers - {h} && s'.accepted == s.accepted
    requires s'.replies == s.replies || s'.replies == s.replies[h := status]
    ensures EnqueuedMeans202(s')
  {
  }

  lemma AcceptedMeans202(s: State, s': State, h: nat, task: Task)
    requires EnqueuedMeans202(s) && h in s.handlers
    requires s'.handlers == s.handlers - {h} && s'.accepted == s.accepted + [Accepted(task, h)]
    requires s'.replies == s.replies[h := ACCEPTED]
    ensures EnqueuedMeans202(s')
  {
  }

  lemma OfferMeans202(s: State, h: nat, readFails: bool)
    requires EnqueuedMeans202(s) && h in s.handlers
    ensures EnqueuedMeans202(OfferStep(s, h, readFails))
  {
    hide EnqueuedMeans202;
    var s' := OfferStep(s, h, readFails);
    if |s'.accepted| > |s.accepted| {
      AcceptedMeans202(s, s', h, Task(s.handlers[h].tenant, s.handlers[h].body));
    } else {
      RefusedMeans202(s, s', h, if s'.replies == s.replies then BAD_REQUEST else s'.replies[h]);
    }
  }

  lemma OfferKeepsReplies(s: State, h: nat, readFails: bool)
    requires ReplyInv(s) && h in s.handlers
    ensures ReplyInv(OfferStep(s, h, readFails))
  {
    var s' := OfferStep(s, h, readFails);
    OfferMeans202(s, h, readFails);
    hide EnqueuedMeans202, Enqueued;
    forall x | x in s'.replies && s'.replies[x] == ACCEPTED ensures Enqueued(s'.accepted, x) {
      if |s'.accepted| > |s.accepted| {
        EnqueuedGrows(s.accepted, s'.accepted[|s.accepted|], x);
      }
    }
  }

  lemma StepKeepsInv(cfg: Config, s: State, a: Action)
    requires Inv(s)
    ensures Inv(Step(cfg, s, a))
    ensures s.accepted <= Step(cfg, s, a).accepted && s.processed <= Step(cfg, s, a).processed
  {
    hide Process, TicketInv, ReplyInv;
    if Enabled(s, a) {
      match a {
        case Take(w) => TakeKeepsTickets(cfg, s, w); RepliesUnchanged(s, Step(cfg, s, a));
        case Finish(_, _, _) => FinishKeepsTickets(cfg, s, a); RepliesUnchanged(s, Step(cfg, s, a));
        case Exit(w) => ExitKeepsTickets(cfg, s, w); RepliesUnchanged(s, Step(cfg, s, a));
        case Offer(h, readFails) => OfferKeepsReplies(s, h, readFails); TicketsUnchanged(s, Step(cfg, s, a));
        case _ => TicketsUnchanged(s, Step(cfg, s, a)); RepliesUnchanged(s, Step(cfg, s, a));
      }
    }
  }

  lemma TicketsUnchanged(s: State, s': State)
    requires TicketInv(s) && s'.workers == s.workers && s'.processed == s.processed && Taken(s') == Taken(s)
    ensures TicketInv(s')
  {
  }

  lemma RepliesUnchanged(s: State, s': State)
    requires ReplyInv(s) && s'.replies == s.replies && s'.accepted == s.accepted
    requires forall h :: h in s'.handlers ==> h in s.handlers || h !in s.replies
    ensures ReplyInv(s')
  {
  }

  lemma {:induction false} RunKeepsInv(cfg: Config, s: State, actions: seq<Action>)
    requires Inv(s)
    ensures Inv(Run(cfg, s, actions))
    ensures s.accepted <= Run(cfg, s, actions).accepted && s.processed <= Run(cfg, s, actions).processed
    decreases |actions|
  {
    hide Inv;
    if actions != [] {
      StepKeepsInv(cfg, s, actions[0]);
      RunKeepsInv(cfg, Step(cfg, s, actions[0]), actions[1..]);
    }
  }

  lemma NewServiceInv(workers: int, bufferSize: int)
    ensures Inv(NewService(workers, bufferSize))
  {
  }
}
