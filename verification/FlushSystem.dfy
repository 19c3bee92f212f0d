/**
  The agent side as a concurrent system: any number of `Transmit` calls and any number of
  `FlushOfflineCache` calls share one offline queue. Only the queue operations are atomic (each
  takes the queue's mutex); posts, replies and cancellations of different calls interleave freely.
  The network decides every reply. An action that is not possible in a state changes nothing, so
  a run is any sequence of actions.
 */
module FlushSystem {
  import opened Wrappers
  import opened OfflineQueue

  datatype Reply = Status(code: int) | NoReply

  predicate Acknowledges(r: Reply) {
    r.Status? && 200 <= r.code < 300
  }

  datatype Ending = Completed | Cancelled | SnapshotFailed | DeleteFailed

  /**
    One call. The first five are stages of `Transmit`, the others of `FlushOfflineCache`, whose
    loop is about to post `snapshot[|flushed|]` while Posting. `base` is bookkeeping: how many
    rows had left the queue when the snapshot was taken.
   */
  datatype Thread =
    | Sending(payload: string)
    | Caching(payload: string)
    | Delivered(payload: string)
    | Cached(payload: string, id: int)
    | Dropped(payload: string)
    | Posting(base: int, snapshot: seq<Row>, flushed: seq<int>)
    | Deleting(base: int, snapshot: seq<Row>, flushed: seq<int>)
    | Finished(base: int, snapshot: seq<Row>, flushed: seq<int>, ending: Ending)

  /** A 2xx answer received for a cached row, with the flush that received it. */
  datatype Ack = Ack(id: int, flush: nat)

  /** Besides the table and the calls: every row ever stored, every acknowledgement, and which
      flush was still running (first) when another one took its snapshot (second). */
  datatype State = State(
    table: Table,
    threads: map<nat, Thread>,
    history: seq<Row>,
    acks: seq<Ack>,
    overlaps: set<(nat, nat)>)

  const INITIAL := State(EMPTY_TABLE, map[], [], [], {})

  datatype Action =
    | StartTransmit(t: nat, body: string)
    | TransmitReply(t: nat, reply: Reply)
    | Cache(t: nat, now: int, storeFails: bool)
    | StartFlush(t: nat, cursor: Cursor)
    | FlushReply(t: nat, reply: Reply)
    | CancelFlush(t: nat)
    | Delete(t: nat, fault: DeleteFault)

  /** How many rows have left the queue. */
  function Released(s: State): int {
    |s.history| - |s.table.rows|
  }

  predicate Flushing(s: State, t: nat) {
    t in s.threads && (s.threads[t].Posting? || s.threads[t].Deleting?)
  }

  function Step(s: State, a: Action): State {
    match a
    case StartTransmit(t, body) =>
      if t in s.threads then s else s.(threads := s.threads[t := Sending(body)])
    case TransmitReply(t, reply) =>
      if t in s.threads && s.threads[t].Sending? then
        var p := s.threads[t].payload;
        s.(threads := s.threads[t := if Acknowledges(reply) then Delivered(p) else Caching(p)])
      else s
    case Cache(t, now, storeFails) =>
      if t in s.threads && s.threads[t].Caching? then CacheStep(s, t, now, storeFails) else s
    case StartFlush(t, cursor) =>
      if t in s.threads then s else StartFlushStep(s, t, cursor)
    case FlushReply(t, reply) =>
      if t in s.threads && s.threads[t].Posting? && |s.threads[t].flushed| < |s.threads[t].snapshot|
      then FlushReplyStep(s, t, reply) else s
    case CancelFlush(t) =>
      if t in s.threads && s.threads[t].Posting? then
        var th := s.threads[t];
        s.(threads := s.threads[t := Finished(th.base, th.snapshot, th.flushed, Cancelled)])
      else s
    case Delete(t, fault) =>
      if t in s.threads && s.threads[t].Deleting? then DeleteStep(s, t, fault) else s
  }

  function CacheStep(s: State, t: nat, now: int, storeFails: bool): State
    requires t in s.threads && s.threads[t].Caching?
  {
    var p := s.threads[t].payload;
    match if storeFails then None else Insert(s.table, p, now)
    case None => s.(threads := s.threads[t := Dropped(p)])
    case Some(table) =>
      s.(table := table,
         threads := s.threads[t := Cached(p, s.table.nextId)],
         history := s.history + [Row(s.table.nextId, p, now)])
  }

  function StartFlushStep(s: State, t: nat, cursor: Cursor): State
    requires t !in s.threads
  {
    match Snapshot(s.table.rows, cursor)
    case None => s.(threads := s.threads[t := Finished(Released(s), [], [], SnapshotFailed)])
    case Some(list) =>
      if list == [] then s.(threads := s.threads[t := Finished(Released(s), [], [], Completed)])
      else s.(threads := s.threads[t := Posting(Released(s), list, [])],
              overlaps := s.overlaps + set g | g in s.threads && Flushing(s, g) :: (g, t))
  }

  function FlushReplyStep(s: State, t: nat, reply: Reply): State
    requires t in s.threads && s.threads[t].Posting? && |s.threads[t].flushed| < |s.threads[t].snapshot|
  {
    var th := s.threads[t];
    if Acknowledges(reply) then
      var id := th.snapshot[|th.flushed|].id;
      var flushed := th.flushed + [id];
      var next := if |flushed| == |th.snapshot| then Deleting(th.base, th.snapshot, flushed)
                  else Posting(th.base, th.snapshot, flushed);
      s.(threads := s.threads[t := next], acks := s.acks + [Ack(id, t)])
    else
      var next := if th.flushed == [] then Finished(th.base, th.snapshot, th.flushed, Completed)
                  else Deleting(th.base, th.snapshot, th.flushed);
      s.(threads := s.threads[t := next])
  }

  function DeleteStep(s: State, t: nat, fault: DeleteFault): State
    requires t in s.threads && s.threads[t].Deleting?
  {
    var th := s.threads[t];
    var ending := if DeleteReportsOk(fault, |th.flushed|) then Completed else DeleteFailed;
    s.(table := DeleteRows(s.table, th.flushed, fault),
       threads := s.threads[t := Finished(th.base, th.snapshot, th.flushed, ending)])
  }

  function Run(s: State, actions: seq<Action>): State
    decreases |actions|
  {
    if actions == [] then s else Run(Step(s, actions[0]), actions[1..])
  }

  // ----- the invariant -----

  /** The ids among the first k acknowledgements. */
  ghost function AckedIds(acks: seq<Ack>, k: nat): set<int>
    requires k <= |acks|
  {
    if k == 0 then {} else AckedIds(acks, k - 1) + {acks[k - 1].id}
  }

  ghost function Acked(acks: seq<Ack>): set<int> {
    AckedIds(acks, |acks|)
  }

  ghost predicate Stored(history: seq<Row>, id: int) {
    exists i :: 0 <= i < |history| && history[i].id == id
  }

  ghost predicate StoredAs(history: seq<Row>, id: int, payload: string) {
    exists i :: 0 <= i < |history| && history[i].id == id && history[i].payload == payload
  }

  /** The queue is a suffix of the history of stored rows. */
  ghost predicate QueueInv(table: Table, history: seq<Row>) {
    && ValidTable(table)
    && Ascending(history)
    && (forall i :: 0 <= i < |history| ==> 1 <= history[i].id < table.nextId)
    && |table.rows| <= |history|
    && table.rows == history[|history| - |table.rows|..]
  }

  /** When acknowledgement k arrived, every row stored before that row had been acknowledged. */
  ghost predicate InOrder(history: seq<Row>, acks: seq<Ack>, k: int) {
    0 <= k < |acks| ==>
      forall i :: 0 <= i < |history| && history[i].id < acks[k].id ==> history[i].id in AckedIds(acks, k)
  }

  /** Only stored rows are acknowledged, first in the order in which they were stored. */
  ghost predicate AckInv(history: seq<Row>, acks: seq<Ack>) {
    && (forall k :: 0 <= k < |acks| ==> Stored(history, acks[k].id))
    && (forall k :: InOrder(history, acks, k))
  }

  /** The first `count` rows of the history have been acknowledged. */
  ghost predicate AckedUpTo(history: seq<Row>, acked: set<int>, count: int) {
    0 <= count <= |history| && forall i :: 0 <= i < count ==> history[i].id in acked
  }

  /** A running flush holds a window of the history, and has acknowledged a prefix of it. */
  ghost predicate WindowOk(history: seq<Row>, acked: set<int>, released: int,
                           base: int, snapshot: seq<Row>, flushed: seq<int>) {
    && 0 <= base <= released
    && base + |snapshot| <= |history|
    && snapshot == history[base..base + |snapshot|]
    && |flushed| <= |snapshot|
    && flushed == Ids(snapshot[..|flushed|])
    && AckedUpTo(history, acked, base + |flushed|)
  }

  ghost predicate ThreadOk(history: seq<Row>, acked: set<int>, released: int, th: Thread) {
    match th
    case Cached(p, id) => StoredAs(history, id, p)
    case Posting(base, snapshot, flushed) =>
      |flushed| < |snapshot| && WindowOk(history, acked, released, base, snapshot, flushed)
    case Deleting(base, snapshot, flushed) => WindowOk(history, acked, released, base, snapshot, flushed)
    case _ => true
  }

  ghost predicate ThreadsOk(s: State) {
    forall t :: t in s.threads ==> ThreadOk(s.history, Acked(s.acks), Released(s), s.threads[t])
  }

  ghost predicate Inv(s: State) {
    && QueueInv(s.table, s.history)
    && AckInv(s.history, s.acks)
    && AckedUpTo(s.history, Acked(s.acks), Released(s))
    && ThreadsOk(s)
  }

  ghost predicate Extends(s: State, s': State) {
    s.history <= s'.history && s.acks <= s'.acks && Released(s) <= Released(s')
  }

  lemma {:induction false} AckedIdsStable(acks: seq<Ack>, acks': seq<Ack>, k: nat)
    requires acks <= acks' && k <= |acks|
    ensures AckedIds(acks, k) == AckedIds(acks', k)
  {
    if k > 0 {
      AckedIdsStable(acks, acks', k - 1);
    }
  }

  lemma {:induction false} AckedIdsGrow(acks: seq<Ack>, j: nat, k: nat)
    requires j <= k <= |acks|
    ensures AckedIds(acks, j) <= AckedIds(acks, k)
    decreases k - j
  {
    if j < k {
      AckedIdsGrow(acks, j, k - 1);
    }
  }

  lemma AckedGrows(acks: seq<Ack>, acks': seq<Ack>)
    requires acks <= acks'
    ensures Acked(acks) <= Acked(acks')
  {
    AckedIdsStable(acks, acks', |acks|);
    AckedIdsGrow(acks', |acks|, |acks'|);
  }

  lemma StoredAsStable(history: seq<Row>, history': seq<Row>, id: int, p: string)
    requires StoredAs(history, id, p) && history <= history'
    ensures StoredAs(history', id, p)
  {
    var i :| 0 <= i < |history| && history[i].id == id && history[i].payload == p;
    assert history'[i] == history[i];
  }

  lemma ThreadOkStable(history: seq<Row>, history': seq<Row>, acked: set<int>, acked': set<int>,
                       released: int, released': int, th: Thread)
    requires ThreadOk(history, acked, released, th)
    requires history <= history' && acked <= acked' && released <= released'
    ensures ThreadOk(history', acked', released', th)
  {
    if th.Cached? {
      StoredAsStable(history, history', th.id, th.payload);
    }
  }

  /** Enough to check the one thread an action touches. */
  lemma OtherThreadsStable(s: State, s': State, t: nat)
    requires ThreadsOk(s) && Extends(s, s')
    requires t in s'.threads && s'.threads == s.threads[t := s'.threads[t]]
    requires ThreadOk(s'.history, Acked(s'.acks), Released(s'), s'.threads[t])
    ensures ThreadsOk(s')
  {
    AckedGrows(s.acks, s'.acks);
    forall u | u in s'.threads
      ensures ThreadOk(s'.history, Acked(s'.acks), Released(s'), s'.threads[u])
    {
      if u != t {
        ThreadOkStable(s.history, s'.history, Acked(s.acks), Acked(s'.acks), Released(s), Released(s'), s.threads[u]);
      }
    }
  }

  lemma StoringKeepsAckInv(history: seq<Row>, acks: seq<Ack>, row: Row)
    requires AckInv(history, acks)
    requires forall i :: 0 <= i < |history| ==> history[i].id < row.id
    ensures AckInv(history + [row], acks)
  {
    var history' := history + [row];
    forall k | 0 <= k < |acks| ensures Stored(history', acks[k].id) && acks[k].id < row.id {
      var i :| 0 <= i < |history| && history[i].id == acks[k].id;
      assert history'[i] == history[i];
    }
    forall k ensures InOrder(history', acks, k) {
      assert InOrder(history, acks, k);
    }
  }

  lemma StoringKeepsQueueInv(table: Table, history: seq<Row>, table': Table, p: string, now: int)
    requires QueueInv(table, history) && Insert(table, p, now) == Some(table')
    ensures QueueInv(table', history + [Row(table.nextId, p, now)])
    ensures StoredAs(history + [Row(table.nextId, p, now)], table.nextId, p)
  {
    var history' := history + [Row(table.nextId, p, now)];
    assert history'[|history|].id == table.nextId;
    assert table'.rows == history'[|history'| - |table'.rows|..];
  }

  lemma CacheKeepsInv(s: State, t: nat, now: int, storeFails: bool)
    requires Inv(s) && t in s.threads && s.threads[t].Caching?
    ensures Inv(CacheStep(s, t, now, storeFails)) && Extends(s, CacheStep(s, t, now, storeFails))
  {
    var s' := CacheStep(s, t, now, storeFails);
    if s'.threads[t].Cached? {
      var p := s.threads[t].payload;
      StoringKeepsQueueInv(s.table, s.history, s'.table, p, now);
      StoringKeepsAckInv(s.history, s.acks, Row(s.table.nextId, p, now));
    }
    OtherThreadsStable(s, s', t);
  }

  lemma SnapshotIsWindow(table: Table, history: seq<Row>, acked: set<int>, list: seq<Row>)
    requires QueueInv(table, history) && list <= table.rows
    requires AckedUpTo(history, acked, |history| - |table.rows|)
    ensures var released := |history| - |table.rows|;
            WindowOk(history, acked, released, released, list, [])
  {
    var released := |history| - |table.rows|;
    assert list == history[released..released + |list|];
  }

  lemma StartFlushKeepsInv(s: State, t: nat, cursor: Cursor)
    requires Inv(s) && t !in s.threads
    ensures Inv(StartFlushStep(s, t, cursor)) && Extends(s, StartFlushStep(s, t, cursor))
  {
    assert |s.table.rows| <= |s.history| by { QueueInvFacts(s.table, s.history); }
    hide QueueInv, AckInv, WindowOk, AckedUpTo, ThreadsOk;
    var s' := StartFlushStep(s, t, cursor);
    if s'.threads[t].Posting? {
      SnapshotIsWindow(s.table, s.history, Acked(s.acks), s'.threads[t].snapshot);
    }
    OtherThreadsStable(s, s', t);
  }

  /** Acknowledging the next row of a window keeps the order of first acknowledgements. */
  lemma NewAckKeepsAckInv(history: seq<Row>, acks: seq<Ack>, at: nat, t: nat)
    requires AckInv(history, acks) && at < |history| && Ascending(history)
    requires AckedUpTo(history, Acked(acks), at)
    ensures AckInv(history, acks + [Ack(history[at].id, t)])
    ensures Acked(acks + [Ack(history[at].id, t)]) == Acked(acks) + {history[at].id}
  {
    var acks' := acks + [Ack(history[at].id, t)];
    AckedIdsStable(acks, acks', |acks|);
    forall k ensures InOrder(history, acks', k) {
      assert InOrder(history, acks, k);
      if 0 <= k < |acks| {
        AckedIdsStable(acks, acks', k);
      }
    }
    forall k | 0 <= k < |acks'| ensures Stored(history, acks'[k].id) {
      assert k < |acks| ==> acks'[k] == acks[k];
    }
  }

  lemma QueueInvFacts(table: Table, history: seq<Row>)
    requires QueueInv(table, history)
    ensures Ascending(history) && |table.rows| <= |history|
  {
  }

  lemma AckedWindow(history: seq<Row>, acked: set<int>, released: int,
                    base: int, snapshot: seq<Row>, flushed: seq<int>)
    requires WindowOk(history, acked, released, base, snapshot, flushed) && |flushed| < |snapshot|
    ensures history[base + |flushed|] == snapshot[|flushed|]
    ensures var id := snapshot[|flushed|].id;
            WindowOk(history, acked + {id}, released, base, snapshot, flushed + [id])
  {
    var n := |flushed|;
    assert snapshot[..n + 1] == snapshot[..n] + [snapshot[n]];
  }

  lemma FlushReplyKeepsInv(s: State, t: nat, reply: Reply)
    requires Inv(s) && t in s.threads && s.threads[t].Posting?
    ensures Inv(FlushReplyStep(s, t, reply)) && Extends(s, FlushReplyStep(s, t, reply))
  {
    hide QueueInv, AckInv;
    var s' := FlushReplyStep(s, t, reply);
    var th := s.threads[t];
    assert ThreadOk(s.history, Acked(s.acks), Released(s), th);
    assert Ascending(s.history) by { QueueInvFacts(s.table, s.history); }
    if Acknowledges(reply) {
      AckedWindow(s.history, Acked(s.acks), Released(s), th.base, th.snapshot, th.flushed);
      NewAckKeepsAckInv(s.history, s.acks, th.base + |th.flushed|, t);
    }
    OtherThreadsStable(s, s', t);
  }

  /** What a committed delete leaves of a queue that is a suffix of the history. */
  lemma DeleteLeavesSuffix(table: Table, history: seq<Row>, acked: set<int>,
                           base: int, snapshot: seq<Row>, flushed: seq<int>)
    requires QueueInv(table, history)
    requires WindowOk(history, acked, |history| - |table.rows|, base, snapshot, flushed)
    ensures var h, top := |history| - |table.rows|, base + |flushed|;
            Without(table.rows, Elements(flushed)) == history[if h <= top then top else h..]
  {
    var h, top := |history| - |table.rows|, base + |flushed|;
    var k := if h <= top then top - h else 0;
    forall i: nat | i < |table.rows| ensures table.rows[i].id in Elements(flushed) <==> i < k {
      FlushedIsAtTheFront(table, history, acked, base, snapshot, flushed, i);
    }
    hide WindowOk, Ascending, Elements, Without;
    WithoutPrefix(table.rows, Elements(flushed), k);
  }

  lemma FlushedIsAtTheFront(table: Table, history: seq<Row>, acked: set<int>,
                            base: int, snapshot: seq<Row>, flushed: seq<int>, i: nat)
    requires QueueInv(table, history) && i < |table.rows|
    requires WindowOk(history, acked, |history| - |table.rows|, base, snapshot, flushed)
    ensures table.rows[i].id in Elements(flushed) <==> |history| - |table.rows| + i < base + |flushed|
  {
    var h, top := |history| - |table.rows|, base + |flushed|;
    assert table.rows[i] == history[h + i];
    if h + i < top {
      assert flushed[h + i - base] == history[h + i].id;
    }
  }

  lemma AckedUpToFits(history: seq<Row>, acked: set<int>, count: int)
    requires AckedUpTo(history, acked, count)
    ensures 0 <= count <= |history|
  {
  }

  lemma SuffixKeepsQueueInv(table: Table, table': Table, history: seq<Row>)
    requires QueueInv(table, history) && table'.nextId == table.nextId
    requires |table'.rows| <= |history| && table'.rows == history[|history| - |table'.rows|..]
    ensures QueueInv(table', history)
  {
  }

  lemma DeleteKeepsInv(s: State, t: nat, fault: DeleteFault)
    requires Inv(s) && t in s.threads && s.threads[t].Deleting?
    ensures Inv(DeleteStep(s, t, fault)) && Extends(s, DeleteStep(s, t, fault))
  {
    var s' := DeleteStep(s, t, fault);
    var th := s.threads[t];
    assert |s.table.rows| <= |s.history| by { QueueInvFacts(s.table, s.history); }
    assert ThreadOk(s.history, Acked(s.acks), Released(s), th);
    assert AckedUpTo(s.history, Acked(s.acks), th.base + |th.flushed|);
    hide QueueInv, AckInv, AckedUpTo, WindowOk, Without;
    if DeleteTakesEffect(fault, |th.flushed|) {
      DeleteLeavesSuffix(s.table, s.history, Acked(s.acks), th.base, th.snapshot, th.flushed);
      AckedUpToFits(s.history, Acked(s.acks), th.base + |th.flushed|);
      SuffixKeepsQueueInv(s.table, s'.table, s.history);
    }
    OtherThreadsStable(s, s', t);
  }

  lemma StepKeepsInv(s: State, a: Action)
    requires Inv(s)
    ensures Inv(Step(s, a)) && Extends(s, Step(s, a))
  {
    hide QueueInv, AckInv, AckedUpTo;
    var s' := Step(s, a);
    if s' != s {
      match a {
        case Cache(t, now, storeFails) => CacheKeepsInv(s, t, now, storeFails);
        case StartFlush(t, cursor) => StartFlushKeepsInv(s, t, cursor);
        case FlushReply(t, reply) => FlushReplyKeepsInv(s, t, reply);
        case Delete(t, fault) => DeleteKeepsInv(s, t, fault);
        case _ => OtherThreadsStable(s, s', a.t);
      }
    }
  }

  lemma {:induction false} RunKeepsInv(s: State, actions: seq<Action>)
    requires Inv(s)
    ensures Inv(Run(s, actions)) && Extends(s, Run(s, actions))
    decreases |actions|
  {
    if actions != [] {
      StepKeepsInv(s, actions[0]);
      RunKeepsInv(Step(s, actions[0]), actions[1..]);
    }
  }
}
