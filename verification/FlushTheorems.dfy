/** What holds in every run of the agent side, whatever the network and the schedule do. */
module FlushTheorems {
  import opened OfflineQueue
  import opened FlushSystem

  lemma InitialQueueInv()
    ensures QueueInv(INITIAL.table, INITIAL.history)
  {
  }

  lemma InitialAckInv()
    ensures AckInv(INITIAL.history, INITIAL.acks)
    ensures AckedUpTo(INITIAL.history, Acked(INITIAL.acks), Released(INITIAL))
  {
    forall k ensures InOrder(INITIAL.history, INITIAL.acks, k) {
    }
  }

  lemma InitialThreadsOk()
    ensures ThreadsOk(INITIAL)
  {
    hide ThreadOk;
  }

  lemma Assemble(s: State)
    requires QueueInv(s.table, s.history) && AckInv(s.history, s.acks)
    requires AckedUpTo(s.history, Acked(s.acks), Released(s)) && ThreadsOk(s)
    ensures Inv(s)
  {
    hide QueueInv, AckInv, AckedUpTo, ThreadsOk;
  }

  lemma InitialInv()
    ensures Inv(INITIAL)
  {
    hide *;
    InitialQueueInv();
    InitialAckInv();
    InitialThreadsOk();
    Assemble(INITIAL);
  }

  lemma {:induction false} AckedIdsMeaning(acks: seq<Ack>, k: nat)
    requires k <= |acks|
    ensures forall id :: id in AckedIds(acks, k) <==> exists j :: 0 <= j < k && acks[j].id == id
  {
    if k > 0 {
      AckedIdsMeaning(acks, k - 1);
      forall id ensures id in AckedIds(acks, k) <==> exists j :: 0 <= j < k && acks[j].id == id {
        if id in AckedIds(acks, k - 1) {
          var j :| 0 <= j < k - 1 && acks[j].id == id;
          assert 0 <= j < k;
        } else if id == acks[k - 1].id {
          assert 0 <= k - 1 < k;
        }
      }
    }
  }

  /** Some acknowledgement among the first k is for this id. */
  ghost predicate AcknowledgedWithin(s: State, k: int, id: int) {
    exists j :: 0 <= j < k && j < |s.acks| && s.acks[j].id == id
  }

  lemma AckedMeaning(s: State, k: nat, id: int)
    requires k <= |s.acks|
    ensures id in AckedIds(s.acks, k) <==> AcknowledgedWithin(s, k, id)
  {
    AckedIdsMeaning(s.acks, k);
    if id in AckedIds(s.acks, k) {
      var j :| 0 <= j < k && s.acks[j].id == id;
      assert AcknowledgedWithin(s, k, id);
    }
  }

  /**
    Under every interleaving of enqueues and flushes (failing, cancelled, with truncated
    snapshots or failing deletes) the queue is a suffix of the rows ever stored, and every row
    that left it was acknowledged with a 2xx.
   */
  lemma QueueIsUnacknowledgedSuffix(actions: seq<Action>) returns (released: nat)
    ensures var s := Run(INITIAL, actions);
            && released <= |s.history|
            && s.table.rows == s.history[released..]
            && forall i :: 0 <= i < released ==> AcknowledgedWithin(s, |s.acks|, s.history[i].id)
  {
    InitialInv();
    RunKeepsInv(INITIAL, actions);
    var s := Run(INITIAL, actions);
    released := Released(s);
    forall i | 0 <= i < released ensures AcknowledgedWithin(s, |s.acks|, s.history[i].id) {
      AckedMeaning(s, |s.acks|, s.history[i].id);
    }
  }

  /** A row is first acknowledged only after every row stored before it, even with several flushes. */
  lemma FirstDeliveryInOrder(actions: seq<Action>, k: nat, i: nat)
    requires var s := Run(INITIAL, actions);
             k < |s.acks| && i < |s.history| && s.history[i].id < s.acks[k].id
    ensures var s := Run(INITIAL, actions);
            AcknowledgedWithin(s, k, s.history[i].id)
  {
    InitialInv();
    RunKeepsInv(INITIAL, actions);
    var s := Run(INITIAL, actions);
    assert InOrder(s.history, s.acks, k);
    AckedMeaning(s, k, s.history[i].id);
  }

  lemma {:induction false} RunConcat(s: State, a: seq<Action>, b: seq<Action>)
    ensures Run(s, a + b) == Run(Run(s, a), b)
    decreases |a|
  {
    if a == [] {
      assert a + b == b;
    } else {
      assert (a + b)[0] == a[0] && (a + b)[1..] == a[1..] + b;
      RunConcat(Step(s, a[0]), a[1..], b);
    }
  }

  /** A row of the history is still in the queue or has been acknowledged. */
  lemma QueuedOrAcknowledged(s: State, row: Row)
    requires Inv(s) && row in s.history
    ensures row in s.table.rows || AcknowledgedWithin(s, |s.acks|, row.id)
  {
    hide AckInv, ThreadsOk;
    var i :| 0 <= i < |s.history| && s.history[i] == row;
    if i < Released(s) {
      AckedMeaning(s, |s.acks|, s.history[i].id);
    } else {
      assert s.table.rows[i - Released(s)] == s.history[i];
    }
  }

  lemma QueuedIsStored(s: State, row: Row)
    requires QueueInv(s.table, s.history) && row in s.table.rows
    ensures row in s.history
  {
    var j :| 0 <= j < |s.table.rows| && s.table.rows[j] == row;
    assert s.history[Released(s) + j] == row;
  }

  /** A row in the queue at any moment (say, one enqueued between another flush's snapshot and
      its delete) is later either still there or acknowledged. */
  lemma NothingIsLost(before: seq<Action>, after: seq<Action>, row: Row)
    requires row in Run(INITIAL, before).table.rows
    ensures var s := Run(INITIAL, before + after);
            row in s.table.rows || AcknowledgedWithin(s, |s.acks|, row.id)
  {
    hide QueueInv, AckInv, ThreadsOk, AckedUpTo;
    var s0 := Run(INITIAL, before);
    RunConcat(INITIAL, before, after);
    InitialInv();
    RunKeepsInv(INITIAL, before);
    RunKeepsInv(s0, after);
    QueuedIsStored(s0, row);
    QueuedOrAcknowledged(Run(s0, after), row);
  }

  predicate Transmitting(th: Thread) {
    th.Sending? || th.Caching? || th.Delivered? || th.Cached? || th.Dropped?
  }

  lemma {:induction false} TransmitKeepsPayload(s: State, actions: seq<Action>, t: nat)
    requires t in s.threads && Transmitting(s.threads[t])
    ensures var s' := Run(s, actions);
            t in s'.threads && Transmitting(s'.threads[t]) && s'.threads[t].payload == s.threads[t].payload
    decreases |actions|
  {
    if actions != [] {
      TransmitKeepsPayload(Step(s, actions[0]), actions[1..], t);
    }
  }

  /**
    No payload given to `Transmit` disappears silently: once the call is over, the payload was
    delivered, or the store refused it, or it is a stored row that is still queued unless a 2xx
    for it arrived.
   */
  lemma TransmitIsConserved(before: seq<Action>, t: nat, body: string, after: seq<Action>)
    requires t !in Run(INITIAL, before).threads
    ensures var s := Run(INITIAL, before + ([StartTransmit(t, body)] + after));
            && t in s.threads
            && match s.threads[t]
               case Sending(p) => p == body
               case Caching(p) => p == body
               case Delivered(p) => p == body
               case Dropped(p) => p == body
               case Cached(p, id) =>
                 && p == body
                 && ((exists row :: row in s.table.rows && row.id == id && row.payload == body)
                     || AcknowledgedWithin(s, |s.acks|, id))
               case _ => false
  {
    hide QueueInv, AckInv, AckedUpTo;
    var s0 := Run(INITIAL, before);
    var actions := [StartTransmit(t, body)] + after;
    var s := Run(s0, actions);
    RunConcat(INITIAL, before, actions);
    InitialInv();
    RunKeepsInv(INITIAL, before);
    RunKeepsInv(s0, actions);
    assert actions[1..] == after;
    TransmitKeepsPayload(Step(s0, actions[0]), after, t);
    if s.threads[t].Cached? {
      var id := s.threads[t].id;
      assert ThreadOk(s.history, Acked(s.acks), Released(s), s.threads[t]);
      var i :| 0 <= i < |s.history| && s.history[i].id == id && s.history[i].payload == body;
      QueuedOrAcknowledged(s, s.history[i]);
    }
  }

  /** In this state flush t is about to hear about its post of the row with this id, as the
      acknowledgement with number k. */
  predicate AwaitsAck(s: State, t: nat, k: nat, id: int) {
    && t in s.threads && s.threads[t].Posting?
    && |s.threads[t].flushed| < |s.threads[t].snapshot|
    && s.threads[t].snapshot[|s.threads[t].flushed|].id == id
    && |s.acks| == k
  }

  /** Every acknowledgement on record is a 2xx reply to the flush's post of that very row, and each
      acknowledgement has a reply of its own. */
  lemma {:induction false} AckHasReply(s: State, actions: seq<Action>, k: nat) returns (i: nat)
    requires |s.acks| <= k < |Run(s, actions).acks|
    ensures i < |actions| && actions[i].FlushReply? && Acknowledges(actions[i].reply)
    ensures actions[i].t == Run(s, actions).acks[k].flush
    ensures AwaitsAck(Run(s, actions[..i]), actions[i].t, k, Run(s, actions).acks[k].id)
    decreases |actions|
  {
    var s1 := Step(s, actions[0]);
    if k < |s1.acks| {
      AcksOnlyGrow(s1, actions[1..]);
      i := 0;
    } else {
      var j := AckHasReply(s1, actions[1..], k);
      i := j + 1;
      assert actions[..i][0] == actions[0] && actions[..i][1..] == actions[1..][..j];
    }
  }

  lemma {:induction false} AcksOnlyGrow(s: State, actions: seq<Action>)
    ensures s.acks <= Run(s, actions).acks
    decreases |actions|
  {
    if actions != [] {
      AcksOnlyGrow(Step(s, actions[0]), actions[1..]);
    }
  }

  /** Action i is a 2xx reply to call t while it waits for one. */
  predicate AcceptedAt(s: State, actions: seq<Action>, i: int, t: nat) {
    && 0 <= i < |actions| && actions[i].TransmitReply? && actions[i].t == t && Acknowledges(actions[i].reply)
    && var before := Run(s, actions[..i]);
       t in before.threads && before.threads[t].Sending?
  }

  /** Action i is the attempt of call t to cache its payload, and the store refuses: it fails, or
      its row ids are used up. */
  predicate RefusedAt(s: State, actions: seq<Action>, i: int, t: nat) {
    && 0 <= i < |actions| && actions[i].Cache? && actions[i].t == t
    && var before := Run(s, actions[..i]);
       && t in before.threads && before.threads[t].Caching?
       && (actions[i].storeFails || before.table.nextId > MAX_ROWID)
  }

  ghost predicate Accepted(s: State, actions: seq<Action>, t: nat) {
    exists i :: AcceptedAt(s, actions, i, t)
  }

  ghost predicate Refused(s: State, actions: seq<Action>, t: nat) {
    exists i :: RefusedAt(s, actions, i, t)
  }

  lemma ShiftEvents(s: State, actions: seq<Action>, t: nat)
    requires actions != []
    ensures Accepted(s, actions, t) <==> AcceptedAt(s, actions, 0, t) || Accepted(Step(s, actions[0]), actions[1..], t)
    ensures Refused(s, actions, t) <==> RefusedAt(s, actions, 0, t) || Refused(Step(s, actions[0]), actions[1..], t)
  {
    var s1, rest := Step(s, actions[0]), actions[1..];
    forall i | 0 <= i < |rest|
      ensures AcceptedAt(s, actions, i + 1, t) == AcceptedAt(s1, rest, i, t)
      ensures RefusedAt(s, actions, i + 1, t) == RefusedAt(s1, rest, i, t)
    {
      assert actions[..i + 1][0] == actions[0] && actions[..i + 1][1..] == rest[..i];
      assert actions[i + 1] == rest[i];
    }
    if Accepted(s, actions, t) {
      var i :| AcceptedAt(s, actions, i, t);
      assert i > 0 ==> AcceptedAt(s1, rest, i - 1, t);
    }
    if Refused(s, actions, t) {
      var i :| RefusedAt(s, actions, i, t);
      assert i > 0 ==> RefusedAt(s1, rest, i - 1, t);
    }
    if Accepted(s1, rest, t) {
      var i :| AcceptedAt(s1, rest, i, t);
      assert AcceptedAt(s, actions, i + 1, t);
    }
    if Refused(s1, rest, t) {
      var i :| RefusedAt(s1, rest, i, t);
      assert RefusedAt(s, actions, i + 1, t);
    }
  }

  /** A call that is over meets no more events. */
  lemma {:induction false} NothingAfterTheEnd(s: State, actions: seq<Action>, t: nat)
    requires t in s.threads && (s.threads[t].Delivered? || s.threads[t].Dropped? || s.threads[t].Cached?)
    ensures !Accepted(s, actions, t) && !Refused(s, actions, t)
    decreases |actions|
  {
    if actions != [] {
      ShiftEvents(s, actions, t);
      NothingAfterTheEnd(Step(s, actions[0]), actions[1..], t);
      assert Run(s, actions[..0]) == s;
    }
  }

  /**
    Over every run: a call ends as delivered exactly when a 2xx answers it, and its payload is
    dropped exactly when the store refuses it after the post failed.
   */
  lemma {:induction false} TransmitOutcomeHasReason(s: State, actions: seq<Action>, t: nat)
    requires t in s.threads && (s.threads[t].Sending? || s.threads[t].Caching?)
    ensures t in Run(s, actions).threads
    ensures Run(s, actions).threads[t].Delivered? <==> Accepted(s, actions, t)
    ensures Run(s, actions).threads[t].Dropped? <==> Refused(s, actions, t)
    decreases |actions|
  {
    TransmitKeepsPayload(s, actions, t);
    if actions != [] {
      var s1 := Step(s, actions[0]);
      ShiftEvents(s, actions, t);
      assert actions[..0] == [] && Run(s, actions[..0]) == s;
      if s1.threads[t].Sending? || s1.threads[t].Caching? {
        TransmitOutcomeHasReason(s1, actions[1..], t);
      } else {
        OutcomeIsFinal(s1, actions[1..], t);
        NothingAfterTheEnd(s1, actions[1..], t);
      }
    }
  }

  /** A run that loses a payload: the host is unreachable and the store refuses the row. */
  lemma PayloadCanBeLost() returns (actions: seq<Action>)
    ensures var s := Run(INITIAL, actions);
            s.threads == map[0 := Dropped("p")] && s.table.rows == [] && s.history == [] && s.acks == []
  {
    actions := [StartTransmit(0, "p"), TransmitReply(0, NoReply), Cache(0, 0, true)];
    var s1 := Step(INITIAL, actions[0]);
    var s2 := Step(s1, actions[1]);
    assert s2.threads == map[0 := Caching("p")];
    var s3 := Step(s2, actions[2]);
    assert s3.threads == map[0 := Dropped("p")];
    assert actions[1..][1..] == [actions[2]] && [actions[2]][1..] == [];
    assert Run(s2, [actions[2]]) == s3;
  }

  lemma {:induction false} OutcomeIsFinal(s: State, actions: seq<Action>, t: nat)
    requires t in s.threads && (s.threads[t].Delivered? || s.threads[t].Dropped? || s.threads[t].Cached?)
    ensures t in Run(s, actions).threads && Run(s, actions).threads[t] == s.threads[t]
    decreases |actions|
  {
    if actions != [] {
      OutcomeIsFinal(Step(s, actions[0]), actions[1..], t);
    }
  }
}
