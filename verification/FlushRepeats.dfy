/**
  When can one cached row be acknowledged twice? Only when two flushes overlapped, or an earlier
  flush returned on cancellation, or its delete failed. Each of the three does happen.
 */
module FlushRepeats {
  import opened OfflineQueue
  import opened FlushSystem
  import FlushTheorems

  predicate Overlapped(s: State, f: nat, g: nat) {
    (f, g) in s.overlaps || (g, f) in s.overlaps
  }

  /** The flush ended without deleting what it had acknowledged. */
  predicate LeftBehind(s: State, f: nat) {
    f in s.threads && s.threads[f].Finished? && (s.threads[f].ending.Cancelled? || s.threads[f].ending.DeleteFailed?)
  }

  predicate Excused(s: State, f: nat, g: nat) {
    f != g && (Overlapped(s, f, g) || LeftBehind(s, f))
  }

  ghost predicate RunningOverlap(s: State) {
    forall f: nat, g: nat :: f != g && Flushing(s, f) && Flushing(s, g) ==> Overlapped(s, f, g)
  }

  /** What a running flush is still to post was acknowledged before only by an excused flush. */
  ghost predicate PendingExcused(s: State) {
    forall k, f, j :: 0 <= k < |s.acks| && f in s.threads && s.threads[f].Posting?
                      && |s.threads[f].flushed| <= j < |s.threads[f].snapshot|
                      && s.threads[f].snapshot[j].id == s.acks[k].id
                      ==> Excused(s, s.acks[k].flush, f)
  }

  /** A flush that acknowledged a row still in the queue is running or left the row behind. */
  ghost predicate AckersKnown(s: State) {
    forall k :: 0 <= k < |s.acks| ==> AckerKnown(s, s.acks[k])
  }

  ghost predicate AckerKnown(s: State, a: Ack) {
    && a.flush in s.threads
    && var th := s.threads[a.flush];
       && (th.Posting? || th.Deleting? || th.Finished?)
       && a.id in th.flushed
       && (th.Finished? && !LeftBehind(s, a.flush) ==> forall i :: 0 <= i < |s.table.rows| ==>
           s.table.rows[i].id != a.id)
  }

  ghost predicate RepeatsExcused(s: State) {
    forall i, j :: 0 <= i < j < |s.acks| && s.acks[i].id == s.acks[j].id
                   ==> Excused(s, s.acks[i].flush, s.acks[j].flush)
  }

  ghost predicate RepeatInv(s: State) {
    RunningOverlap(s) && PendingExcused(s) && AckersKnown(s) && RepeatsExcused(s)
  }

  /** No flush loses its excuses. */
  lemma ExcusesLast(s: State, a: Action)
    ensures forall f, g :: Excused(s, f, g) ==> Excused(Step(s, a), f, g)
    ensures forall f :: LeftBehind(s, f) ==> LeftBehind(Step(s, a), f)
  {
  }

  lemma CacheKeepsRepeatInv(s: State, a: Action)
    requires Inv(s) && RepeatInv(s) && a.Cache?
    ensures RepeatInv(Step(s, a))
  {
    hide ThreadsOk, AckedUpTo, InOrder;
    var s' := Step(s, a);
    ExcusesLast(s, a);
    forall k | 0 <= k < |s'.acks| ensures AckerKnown(s', s'.acks[k]) {
      assert AckerKnown(s, s.acks[k]);
      assert Stored(s.history, s.acks[k].id);
    }
    forall f: nat, g: nat | f != g && Flushing(s', f) && Flushing(s', g) ensures Overlapped(s', f, g) {
      assert Flushing(s, f) && Flushing(s, g);
    }
  }

  lemma StartFlushKeepsRepeatInv(s: State, a: Action)
    requires Inv(s) && RepeatInv(s) && a.StartFlush?
    ensures RepeatInv(Step(s, a))
  {
    hide QueueInv, AckInv, ThreadsOk;
    var s' := Step(s, a);
    ExcusesLast(s, a);
    forall k | 0 <= k < |s'.acks| ensures AckerKnown(s', s'.acks[k]) {
      assert AckerKnown(s, s.acks[k]);
    }
    forall f: nat, g: nat | f != g && Flushing(s', f) && Flushing(s', g) ensures Overlapped(s', f, g) {
      if Flushing(s, f) && Flushing(s, g) {
      } else if Flushing(s, f) {
        assert (f, g) in s'.overlaps;
      } else {
        assert Flushing(s, g) && (g, f) in s'.overlaps;
      }
    }
    forall k, f, j | 0 <= k < |s'.acks| && f in s'.threads && s'.threads[f].Posting?
                      && |s'.threads[f].flushed| <= j < |s'.threads[f].snapshot|
                      && s'.threads[f].snapshot[j].id == s'.acks[k].id
      ensures Excused(s', s'.acks[k].flush, f)
    {
      if f == a.t && s' != s && a.t !in s.threads {
        assert AckerKnown(s, s.acks[k]);
        assert s'.threads[f].snapshot[j] == s.table.rows[j];
        assert Flushing(s, s.acks[k].flush) || LeftBehind(s, s.acks[k].flush);
      }
    }
  }

  /** The row a flush posts next differs from the ones it posted before and from those after. */
  lemma NextIsNew(s: State, t: nat)
    requires Inv(s) && t in s.threads && s.threads[t].Posting?
    ensures var th := s.threads[t];
            && |th.flushed| < |th.snapshot|
            && (forall j :: |th.flushed| < j < |th.snapshot| ==> th.snapshot[j].id != th.snapshot[|th.flushed|].id)
            && th.snapshot[|th.flushed|].id !in th.flushed
  {
    hide AckInv, AckedUpTo;
    assert ThreadOk(s.history, Acked(s.acks), Released(s), s.threads[t]);
  }

  lemma FlushReplyKeepsRepeatInv(s: State, a: Action)
    requires Inv(s) && RepeatInv(s) && a.FlushReply?
    ensures RepeatInv(Step(s, a))
  {
    hide QueueInv, AckInv, ThreadsOk;
    var s' := Step(s, a);
    ExcusesLast(s, a);
    if a.t in s.threads && s.threads[a.t].Posting? {
      var th := s.threads[a.t];
      NextIsNew(s, a.t);
      forall k | 0 <= k < |s'.acks| ensures AckerKnown(s', s'.acks[k]) {
        if k < |s.acks| {
          assert AckerKnown(s, s.acks[k]);
        }
      }
      forall f: nat, g: nat | f != g && Flushing(s', f) && Flushing(s', g) ensures Overlapped(s', f, g) {
        assert Flushing(s, f) && Flushing(s, g);
      }
      forall k, f, j | 0 <= k < |s'.acks| && f in s'.threads && s'.threads[f].Posting?
                        && |s'.threads[f].flushed| <= j < |s'.threads[f].snapshot|
                        && s'.threads[f].snapshot[j].id == s'.acks[k].id
        ensures Excused(s', s'.acks[k].flush, f)
      {
        if k == |s.acks| && f != a.t {
          assert Flushing(s, f) && Flushing(s, a.t);
        }
      }
      forall i, j | 0 <= i < j < |s'.acks| && s'.acks[i].id == s'.acks[j].id
        ensures Excused(s', s'.acks[i].flush, s'.acks[j].flush)
      {
        if j == |s.acks| {
          assert th.snapshot[|th.flushed|].id == s.acks[i].id;
        }
      }
    }
  }

  lemma DeleteKeepsRepeatInv(s: State, a: Action)
    requires Inv(s) && RepeatInv(s) && a.Delete?
    ensures RepeatInv(Step(s, a))
  {
    hide QueueInv, AckInv, ThreadsOk;
    var s' := Step(s, a);
    ExcusesLast(s, a);
    assert Ascending(s.table.rows) by {
      RowsAscend(s);
    }
    if a.t in s.threads && s.threads[a.t].Deleting? {
      WithoutKeepsOrder(s.table.rows, Elements(s.threads[a.t].flushed));
      forall k | 0 <= k < |s'.acks| ensures AckerKnown(s', s'.acks[k]) {
        assert AckerKnown(s, s.acks[k]);
        forall i | 0 <= i < |s'.table.rows| ensures s'.table.rows[i] in s.table.rows {
        }
      }
      forall f: nat, g: nat | f != g && Flushing(s', f) && Flushing(s', g) ensures Overlapped(s', f, g) {
        assert Flushing(s, f) && Flushing(s, g);
      }
    }
  }

  lemma RowsAscend(s: State)
    requires QueueInv(s.table, s.history)
    ensures Ascending(s.table.rows)
  {
  }

  lemma OtherStepsKeepRepeatInv(s: State, a: Action)
    requires RepeatInv(s) && (a.StartTransmit? || a.TransmitReply? || a.CancelFlush?)
    ensures RepeatInv(Step(s, a))
  {
    var s' := Step(s, a);
    ExcusesLast(s, a);
    forall k | 0 <= k < |s'.acks| ensures AckerKnown(s', s'.acks[k]) {
      assert AckerKnown(s, s.acks[k]);
    }
    forall f: nat, g: nat | f != g && Flushing(s', f) && Flushing(s', g) ensures Overlapped(s', f, g) {
      assert Flushing(s, f) && Flushing(s, g);
    }
  }

  lemma {:induction false} RunKeepsRepeatInv(s: State, actions: seq<Action>)
    requires Inv(s) && RepeatInv(s)
    ensures RepeatInv(Run(s, actions))
    decreases |actions|
  {
    hide QueueInv, AckInv, ThreadsOk, RepeatInv;
    if actions != [] {
      var a := actions[0];
      match a {
        case Cache(_, _, _) => CacheKeepsRepeatInv(s, a);
        case StartFlush(_, _) => StartFlushKeepsRepeatInv(s, a);
        case FlushReply(_, _) => FlushReplyKeepsRepeatInv(s, a);
        case Delete(_, _) => DeleteKeepsRepeatInv(s, a);
        case _ => OtherStepsKeepRepeatInv(s, a);
      }
      StepKeepsInv(s, a);
      RunKeepsRepeatInv(Step(s, a), actions[1..]);
    }
  }

  /** In every run, a repeated acknowledgement traces to an overlap, a cancellation or a failed delete. */
  lemma EveryRepeatHasACause(actions: seq<Action>, i: nat, j: nat)
    requires var s := Run(INITIAL, actions); i < j < |s.acks| && s.acks[i].id == s.acks[j].id
    ensures var s := Run(INITIAL, actions);
            var first, second := s.acks[i].flush, s.acks[j].flush;
            first != second && (Overlapped(s, first, second) || LeftBehind(s, first))
  {
    FlushTheorems.InitialInv();
    RunKeepsRepeatInv(INITIAL, actions);
  }

  /** Acknowledged at most once: flushes one at a time, none cancelled, every delete committed. */
  lemma AcknowledgedOnceWhenOrderly(actions: seq<Action>, i: nat, j: nat)
    requires var s := Run(INITIAL, actions);
             s.overlaps == {} && (forall f :: !LeftBehind(s, f)) && i < |s.acks| && j < |s.acks|
    ensures var s := Run(INITIAL, actions);
            s.acks[i].id == s.acks[j].id ==> i == j
  {
    var s := Run(INITIAL, actions);
    if i != j && s.acks[i].id == s.acks[j].id {
      EveryRepeatHasACause(actions, if i < j then i else j, if i < j then j else i);
    }
  }

  // ----- exactly when a row can still be acknowledged -----

  /** The row is in the queue, or a running flush has still to post it. */
  ghost predicate Live(s: State, id: int) {
    || (exists i :: 0 <= i < |s.table.rows| && s.table.rows[i].id == id)
    || (exists t: nat, j: nat :: Unposted(s, t, j, id))
  }

  predicate Unposted(s: State, t: nat, j: nat, id: int) {
    && t in s.threads && s.threads[t].Posting?
    && |s.threads[t].flushed| <= j < |s.threads[t].snapshot|
    && s.threads[t].snapshot[j].id == id
  }

  /** Some continuation acknowledges the row (again). */
  ghost predicate CanBeAcknowledged(s: State, id: int) {
    exists actions, k :: NewAck(s, actions, k, id)
  }

  predicate NewAck(s: State, actions: seq<Action>, k: nat, id: int) {
    |s.acks| <= k < |Run(s, actions).acks| && Run(s, actions).acks[k].id == id
  }

  /** What a flush has still to post, it had to before, or it was just read from the queue. */
  lemma UnpostedWasLive(s: State, a: Action, t: nat, j: nat, id: int)
    requires Unposted(Step(s, a), t, j, id)
    ensures Live(s, id)
  {
    if !Unposted(s, t, j, id) {
      assert a == StartFlush(t, a.cursor) && Step(s, a).threads[t].snapshot[j] == s.table.rows[j];
    }
  }

  /** A stored row that is not live stays so, and the step does not acknowledge it. */
  lemma GoneStaysGone(s: State, a: Action, id: int)
    requires Inv(s) && id < s.table.nextId && !Live(s, id)
    ensures var s' := Step(s, a);
            && id < s'.table.nextId && !Live(s', id)
            && forall k :: |s.acks| <= k < |s'.acks| ==> s'.acks[k].id != id
  {
    hide QueueInv, AckInv, ThreadsOk;
    var s' := Step(s, a);
    if a.Delete? && s'.table != s.table {
      assert Ascending(s.table.rows) by { RowsAscend(s); }
      WithoutKeepsOrder(s.table.rows, Elements(s.threads[a.t].flushed));
    }
    forall i | 0 <= i < |s'.table.rows| ensures s'.table.rows[i].id != id {
      assert s'.table.rows[i] in s'.table.rows;
      assert s'.table.rows[i].id == s.table.nextId || s'.table.rows[i] in s.table.rows;
    }
    forall t: nat, j: nat ensures !Unposted(s', t, j, id) {
      if Unposted(s', t, j, id) {
        UnpostedWasLive(s, a, t, j, id);
      }
    }
    if a.FlushReply? && |s'.acks| > |s.acks| {
      assert !Unposted(s, a.t, |s.threads[a.t].flushed|, id);
    }
  }

  lemma {:induction false} GoneForGood(s: State, actions: seq<Action>, id: int)
    requires Inv(s) && id < s.table.nextId && !Live(s, id)
    ensures forall k :: |s.acks| <= k < |Run(s, actions).acks| ==> Run(s, actions).acks[k].id != id
    decreases |actions|
  {
    hide Inv, Live, Step;
    if actions != [] {
      var s1 := Step(s, actions[0]);
      GoneStaysGone(s, actions[0], id);
      StepKeepsInv(s, actions[0]);
      GoneForGood(s1, actions[1..], id);
      FlushTheorems.AcksOnlyGrow(s1, actions[1..]);
      assert forall k :: 0 <= k < |s1.acks| ==> Run(s1, actions[1..]).acks[k] == s1.acks[k];
    }
  }

  /** Accepting replies take a flush to the row at position j of its snapshot, and past it. */
  lemma {:induction false} PostUntil(s: State, t: nat, j: nat, id: int) returns (actions: seq<Action>, k: nat)
    requires Unposted(s, t, j, id)
    ensures NewAck(s, actions, k, id) && Run(s, actions).table == s.table
    decreases j - |s.threads[t].flushed|
  {
    var reply := FlushReply(t, OK);
    var s1 := Step(s, reply);
    if j == |s.threads[t].flushed| {
      actions, k := [reply], |s.acks|;
      assert [reply][1..] == [] && Run(s1, []) == s1;
    } else {
      actions, k := PostUntil(s1, t, j, id);
      assert ([reply] + actions)[1..] == actions;
      actions := [reply] + actions;
    }
  }

  lemma {:induction false} FreshCall(threads: set<nat>) returns (t: nat)
    ensures forall x :: x in threads ==> x < t
  {
    if threads == {} {
      t := 0;
    } else {
      var x :| x in threads;
      var u := FreshCall(threads - {x});
      t := if u <= x then x + 1 else u;
      forall y | y in threads ensures y < t {
        assert y == x || y in threads - {x};
      }
    }
  }

  /**
    Exactly when a stored row can be acknowledged (again): when it is in the queue, as after a
    cancellation or a rolled-back delete, or when a flush that is still running holds it unposted.
   */
  lemma RowCanBeAcknowledgedExactlyWhenLive(s: State, id: int)
    requires Inv(s) && id < s.table.nextId
    ensures CanBeAcknowledged(s, id) <==> Live(s, id)
  {
    hide Inv, Run, Step;
    if CanBeAcknowledged(s, id) {
      var actions, k :| NewAck(s, actions, k, id);
      if !Live(s, id) {
        GoneForGood(s, actions, id);
      }
    }
    if Live(s, id) {
      if i :| 0 <= i < |s.table.rows| && s.table.rows[i].id == id {
        var actions, k := FlushUntil(s, i);
        assert NewAck(s, actions, k, id);
      } else {
        var t: nat, j: nat :| Unposted(s, t, j, id);
        var actions, k := PostUntil(s, t, j, id);
        assert NewAck(s, actions, k, id);
      }
    }
  }

  /** A new flush gets to any row of the queue. */
  lemma FlushUntil(s: State, i: nat) returns (actions: seq<Action>, k: nat)
    requires i < |s.table.rows|
    ensures NewAck(s, actions, k, s.table.rows[i].id) && Run(s, actions).table == s.table
  {
    var t := FreshCall(s.threads.Keys);
    var start := StartFlush(t, StopsAfter(|s.table.rows|));
    var s1 := Step(s, start);
    assert t !in s.threads;
    assert Unposted(s1, t, i, s.table.rows[i].id);
    actions, k := PostUntil(s1, t, i, s.table.rows[i].id);
    assert ([start] + actions)[1..] == actions;
    actions := [start] + actions;
  }

  /** No row acknowledged so far is acknowledged again, in any continuation, if and only if none of
      them is live. */
  lemma AcknowledgedRowsAreSettledExactly(s: State)
    requires Inv(s)
    ensures (forall id :: id in Acked(s.acks) ==> !CanBeAcknowledged(s, id))
            <==> (forall id :: id in Acked(s.acks) ==> !Live(s, id))
  {
    hide CanBeAcknowledged, Live;
    forall id | id in Acked(s.acks) ensures CanBeAcknowledged(s, id) <==> Live(s, id) {
      AckedIsStored(s, id);
      RowCanBeAcknowledgedExactlyWhenLive(s, id);
    }
  }

  /** In this continuation the new acknowledgement j repeats acknowledgement i. */
  predicate RepeatAt(s: State, actions: seq<Action>, i: nat, j: nat) {
    var acks := Run(s, actions).acks;
    i < j && |s.acks| <= j < |acks| && acks[i].id == acks[j].id
  }

  ghost predicate CanRepeat(s: State) {
    exists actions, i, j :: RepeatAt(s, actions, i, j)
  }

  /** Any continuation can repeat an acknowledgement as long as there is a row to post, or may be. */
  lemma NoContinuationRepeatsExactly(s: State)
    requires Inv(s)
    ensures !CanRepeat(s) <==> (forall id :: !Live(s, id)) && s.table.nextId > MAX_ROWID
  {
    hide Inv, Live, Run, Step, RepeatAt;
    if (forall id :: !Live(s, id)) && s.table.nextId > MAX_ROWID {
      forall actions, i, j ensures !RepeatAt(s, actions, i, j) {
        if RepeatAt(s, actions, i, j) {
          NothingToPost(s, actions, i, j);
        }
      }
    } else if id :| Live(s, id) {
      LiveCanRepeat(s, id);
    } else {
      var actions := CacheOne(s);
      var s1 := Run(s, actions);
      var more, i, j := RepeatQueued(s1, 0);
      RepeatLater(s, actions, more, i, j);
    }
  }

  lemma NothingToPost(s: State, actions: seq<Action>, i: nat, j: nat)
    requires Inv(s) && s.table.nextId > MAX_ROWID && RepeatAt(s, actions, i, j)
    ensures exists id :: Live(s, id)
  {
    hide QueueInv, AckedUpTo, ThreadsOk, Step, Live;
    var last := Run(s, actions);
    var id := last.acks[j].id;
    FullStaysFull(s, actions);
    RunKeepsInv(s, actions);
    AckedIsStored(last, id) by {
      FlushTheorems.AckedMeaning(last, |last.acks|, id);
      assert FlushTheorems.AcknowledgedWithin(last, |last.acks|, id);
    }
    if !Live(s, id) {
      GoneForGood(s, actions, id);
      assert false;
    }
  }

  lemma {:induction false} FullStaysFull(s: State, actions: seq<Action>)
    requires s.table.nextId > MAX_ROWID
    ensures Run(s, actions).table.nextId == s.table.nextId
    decreases |actions|
  {
    if actions != [] {
      FullStaysFull(Step(s, actions[0]), actions[1..]);
    }
  }

  lemma LiveCanRepeat(s: State, id: int)
    requires Inv(s) && Live(s, id)
    ensures CanRepeat(s)
  {
    hide Inv, Run, Step;
    if i :| 0 <= i < |s.table.rows| && s.table.rows[i].id == id {
      var actions, j, k := RepeatQueued(s, i);
    } else {
      var t: nat, n: nat :| Unposted(s, t, n, id);
      var actions, k := PostUntil(s, t, n, id);
      var i := UnqueuedIsAcked(s, t, n, id);
      FlushTheorems.AcksOnlyGrow(s, actions);
      assert RepeatAt(s, actions, i, k);
    }
  }

  /** A row that a flush holds unposted and that is not in the queue was acknowledged before. */
  lemma UnqueuedIsAcked(s: State, t: nat, n: nat, id: int) returns (i: nat)
    requires Inv(s) && Unposted(s, t, n, id) && forall j :: 0 <= j < |s.table.rows| ==> s.table.rows[j].id != id
    ensures i < |s.acks| && s.acks[i].id == id
  {
    hide AckInv;
    var th := s.threads[t];
    assert ThreadOk(s.history, Acked(s.acks), Released(s), th);
    assert s.history[th.base + n] == th.snapshot[n];
    assert th.base + n < Released(s);
    FlushTheorems.AckedMeaning(s, |s.acks|, id);
    i :| 0 <= i < |s.acks| && s.acks[i].id == id;
  }

  /** Two flushes one after the other, neither of which deletes. */
  lemma RepeatQueued(s: State, i: nat) returns (actions: seq<Action>, j: nat, k: nat)
    requires i < |s.table.rows|
    ensures RepeatAt(s, actions, j, k)
  {
    hide Run, Step;
    var first, second;
    first, j := FlushUntil(s, i);
    var s1 := Run(s, first);
    second, k := FlushUntil(s1, i);
    actions := first + second;
    FlushTheorems.RunConcat(s, first, second);
    FlushTheorems.AcksOnlyGrow(s1, second);
  }

  lemma CacheOne(s: State) returns (actions: seq<Action>)
    requires Inv(s) && s.table.nextId <= MAX_ROWID
    ensures |Run(s, actions).table.rows| > 0 && |Run(s, actions).acks| == |s.acks|
  {
    var t := FreshCall(s.threads.Keys);
    assert t !in s.threads;
    actions := [StartTransmit(t, "p"), TransmitReply(t, NoReply), Cache(t, 0, false)];
    var s2 := Step(Step(s, actions[0]), actions[1]);
    assert actions[1..][1..] == [actions[2]] && [actions[2]][1..] == [];
    assert Run(s2, [actions[2]]) == Step(s2, actions[2]);
  }

  lemma RepeatLater(s: State, actions: seq<Action>, more: seq<Action>, i: nat, j: nat)
    requires |Run(s, actions).acks| == |s.acks| && RepeatAt(Run(s, actions), more, i, j)
    ensures RepeatAt(s, actions + more, i, j)
  {
    FlushTheorems.RunConcat(s, actions, more);
  }

  lemma AckedIsStored(s: State, id: int)
    requires Inv(s) && id in Acked(s.acks)
    ensures id < s.table.nextId
  {
    FlushTheorems.AckedMeaning(s, |s.acks|, id);
    var j :| 0 <= j < |s.acks| && s.acks[j].id == id;
    assert Stored(s.history, s.acks[j].id);
  }

  // ----- each cause is real: a run in which it makes row 1 be acknowledged twice -----

  const OK := Status(202)

  /** Row 1 was acknowledged twice, by different flushes. */
  predicate Repeated(s: State) {
    |s.acks| == 2 && s.acks[0] == Ack(1, 1) && s.acks[1] == Ack(1, 2)
  }

  lemma Extend(actions: seq<Action>, s: State, a: Action) returns (actions': seq<Action>, s': State)
    requires Run(INITIAL, actions) == s
    ensures actions' == actions + [a] && s' == Step(s, a) && Run(INITIAL, actions') == s'
  {
    actions', s' := actions + [a], Step(s, a);
    FlushTheorems.RunConcat(INITIAL, actions, [a]);
    assert [a][1..] == [];
  }

  /** The call with number 0 cached one payload, as row 1. */
  lemma OneCached() returns (actions: seq<Action>, s: State)
    ensures Run(INITIAL, actions) == s
    ensures s == State(Table([Row(1, "p", 0)], 2), map[0 := Cached("p", 1)], [Row(1, "p", 0)], [], {})
  {
    actions, s := Extend([], INITIAL, StartTransmit(0, "p"));
    actions, s := Extend(actions, s, TransmitReply(0, NoReply));
    actions, s := Extend(actions, s, Cache(0, 0, false));
    assert s.threads == map[0 := Cached("p", 1)];
  }

  /** Two flushes that both took their snapshot before either deleted. */
  lemma OverlapAloneRepeats() returns (actions: seq<Action>)
    ensures var s := Run(INITIAL, actions); Repeated(s) && forall f :: !LeftBehind(s, f)
  {
    var s;
    actions, s := OneCached();
    actions, s := Extend(actions, s, StartFlush(1, StopsAfter(1)));
    assert s.threads[1] == Posting(0, [Row(1, "p", 0)], []);
    actions, s := Extend(actions, s, StartFlush(2, StopsAfter(1)));
    assert s.threads[2] == Posting(0, [Row(1, "p", 0)], []);
    actions, s := Extend(actions, s, FlushReply(1, OK));
    actions, s := Extend(actions, s, FlushReply(2, OK));
  }

  lemma DeleteFailedAfterOne() returns (actions: seq<Action>, s: State)
    ensures Run(INITIAL, actions) == s
    ensures s.table.rows == [Row(1, "p", 0)] && s.history == s.table.rows
    ensures s.acks == [Ack(1, 1)] && s.overlaps == {} && s.threads.Keys == {0, 1}
    ensures s.threads[0].Cached? && s.threads[1] == Finished(0, s.table.rows, [1], DeleteFailed)
  {
    actions, s := OneCached();
    actions, s := Extend(actions, s, StartFlush(1, StopsAfter(1)));
    assert s.threads[1] == Posting(0, [Row(1, "p", 0)], []);
    actions, s := Extend(actions, s, FlushReply(1, OK));
    actions, s := Extend(actions, s, Delete(1, CommitRolledBack));
  }

  /** A flush whose delete was rolled back, and the next flush. */
  lemma FailedDeleteAloneRepeats() returns (actions: seq<Action>)
    ensures var s := Run(INITIAL, actions);
            Repeated(s) && s.overlaps == {} && forall f :: f in s.threads && s.threads[f].Finished? ==>
                !s.threads[f].ending.Cancelled?
  {
    var s;
    actions, s := DeleteFailedAfterOne();
    actions, s := Extend(actions, s, StartFlush(2, StopsAfter(1)));
    assert s.threads[2] == Posting(0, [Row(1, "p", 0)], []);
    actions, s := Extend(actions, s, FlushReply(2, OK));
  }

  lemma TwoCached() returns (actions: seq<Action>, s: State)
    ensures Run(INITIAL, actions) == s
    ensures s.table == Table([Row(1, "p", 0), Row(2, "q", 0)], 3) && s.history == s.table.rows
    ensures s.threads == map[0 := Cached("p", 1), 3 := Cached("q", 2)] && s.acks == [] && s.overlaps == {}
  {
    actions, s := OneCached();
    actions, s := Extend(actions, s, StartTransmit(3, "q"));
    actions, s := Extend(actions, s, TransmitReply(3, Status(503)));
    actions, s := Extend(actions, s, Cache(3, 0, false));
  }

  lemma CancelledAfterOne() returns (actions: seq<Action>, s: State)
    ensures Run(INITIAL, actions) == s
    ensures s.table.rows == [Row(1, "p", 0), Row(2, "q", 0)] && s.history == s.table.rows
    ensures s.acks == [Ack(1, 1)] && s.overlaps == {} && s.threads.Keys == {0, 1, 3}
    ensures s.threads[0].Cached? && s.threads[3].Cached? && s.threads[1] == Finished(0, s.table.rows, [1], Cancelled)
  {
    actions, s := TwoCached();
    actions, s := Extend(actions, s, StartFlush(1, StopsAfter(2)));
    assert s.threads[1] == Posting(0, [Row(1, "p", 0), Row(2, "q", 0)], []);
    actions, s := Extend(actions, s, FlushReply(1, OK));
    actions, s := Extend(actions, s, CancelFlush(1));
  }

  /** A flush that acknowledged the first of two rows and then saw its context cancelled. */
  lemma CancellationAloneRepeats() returns (actions: seq<Action>)
    ensures var s := Run(INITIAL, actions);
            Repeated(s) && s.overlaps == {} && forall f :: f in s.threads && s.threads[f].Finished? ==>
                !s.threads[f].ending.DeleteFailed?
  {
    var s;
    actions, s := CancelledAfterOne();
    actions, s := Extend(actions, s, StartFlush(2, StopsAfter(1)));
    assert s.threads[2] == Posting(0, [Row(1, "p", 0)], []);
    actions, s := Extend(actions, s, FlushReply(2, OK));
  }
}
