/** What one step of the concurrent system does, by status code and by what the store does: the same
    as the sequential operations, whatever else is going on. */
module FlushSteps {
  import opened OfflineQueue
  import opened FlushSystem

  /** Nothing but this one call has moved. */
  predicate OnlyMoves(s: State, s': State, t: nat) {
    && t in s'.threads && s'.threads == s.threads[t := s'.threads[t]]
    && s'.overlaps == s.overlaps
  }

  lemma TransmitReplyByStatus(s: State, t: nat, reply: Reply)
    requires t in s.threads && s.threads[t].Sending?
    ensures var s' := Step(s, TransmitReply(t, reply));
            && OnlyMoves(s, s', t) && s'.table == s.table && s'.history == s.history && s'.acks == s.acks
            && (s'.threads[t] == Delivered(s.threads[t].payload) <==>
                reply.Status? && 200 <= reply.code && reply.code <= 299)
            && (s'.threads[t] == Caching(s.threads[t].payload) <==>
                reply.NoReply? || reply.code < 200 || 300 <= reply.code)
  {
  }

  /** Caching is `Enqueue`: one new row at the end, unless the store fails or has no id left. */
  lemma CacheIsEnqueue(s: State, t: nat, now: int, storeFails: bool)
    requires t in s.threads && s.threads[t].Caching?
    ensures var s', row := Step(s, Cache(t, now, storeFails)), Row(s.table.nextId, s.threads[t].payload, now);
            && OnlyMoves(s, s', t) && s'.acks == s.acks
            && (if storeFails || s.table.nextId > 9_223_372_036_854_775_807
                then s'.threads[t].Dropped? && s'.table == s.table && s'.history == s.history
                else && s'.threads[t] == Cached(s.threads[t].payload, s.table.nextId)
                     && s'.table == Table(s.table.rows + [row], s.table.nextId + 1)
                     && s'.history == s.history + [row])
  {
  }

  /** A flush starts from a prefix of the queue, and runs on only if that is not empty. */
  lemma StartIsDequeueAll(s: State, t: nat, cursor: Cursor)
    requires t !in s.threads
    ensures var s' := Step(s, StartFlush(t, cursor));
            && t in s'.threads && s'.threads == s.threads[t := s'.threads[t]]
            && s'.table == s.table && s'.history == s.history && s'.acks == s.acks
            && (s'.threads[t].Posting? ==>
                  && s'.threads[t].flushed == [] && s'.threads[t].snapshot != []
                  && s'.threads[t].snapshot <= s.table.rows
                  && (!cursor.StopsAfter? ==> s'.threads[t].snapshot == s.table.rows)
                  && (cursor.StopsAfter? && cursor.count <= |s.table.rows| ==>
                        |s'.threads[t].snapshot| == cursor.count)
                  && forall f: nat, g: nat ::
                       (f, g) in s'.overlaps <==> (f, g) in s.overlaps || (g == t && Flushing(s, f)))
            && (s'.threads[t].Posting? <==>
                  s.table.rows != [] && match cursor
                                        case QueryError => false
                                        case ScanError(at) => |s.table.rows| <= at
                                        case StopsAfter(count) => count != 0)
            && (!s'.threads[t].Posting? ==>
                  && s'.threads[t].Finished? && s'.threads[t].flushed == [] && s'.overlaps == s.overlaps
                  && (s'.threads[t].ending == SnapshotFailed <==>
                        cursor.QueryError? || (cursor.ScanError? && cursor.at < |s.table.rows|))
                  && (s'.threads[t].ending == SnapshotFailed || s'.threads[t].ending == Completed))
  {
  }

  /** A 2xx counts the row and goes on to the next one, if there is one; anything else ends the
      posting, and what was counted is to be deleted. */
  lemma FlushReplyByStatus(s: State, t: nat, reply: Reply)
    requires t in s.threads && s.threads[t].Posting? && |s.threads[t].flushed| < |s.threads[t].snapshot|
    ensures var s', th := Step(s, FlushReply(t, reply)), s.threads[t];
            var id := th.snapshot[|th.flushed|].id;
            && OnlyMoves(s, s', t) && s'.table == s.table && s'.history == s.history
            && (if reply.Status? && 200 <= reply.code && reply.code <= 299
                then && s'.acks == s.acks + [Ack(id, t)]
                     && s'.threads[t] == if |th.flushed| + 1 < |th.snapshot|
                                         then Posting(th.base, th.snapshot, th.flushed + [id])
                                         else Deleting(th.base, th.snapshot, th.flushed + [id])
                else && s'.acks == s.acks
                     && (th.flushed != [] ==> s'.threads[t] == Deleting(th.base, th.snapshot, th.flushed))
                     && (th.flushed == [] ==> s'.threads[t] == Finished(th.base, th.snapshot, [], Completed)))
  {
  }

  /** The delete is all or nothing, and ends as failed exactly when an error is reported, which may
      come although the rows are gone. */
  lemma DeleteIsAllOrNothing(s: State, t: nat, fault: DeleteFault)
    requires Inv(s) && t in s.threads && s.threads[t].Deleting? && s.threads[t].flushed != []
    ensures var s', th := Step(s, Delete(t, fault)), s.threads[t];
            && OnlyMoves(s, s', t) && s'.history == s.history && s'.acks == s.acks
            && s'.threads[t].Finished? && s'.threads[t].flushed == th.flushed
            && s'.threads[t].ending == (if fault.NoFault? || (fault.ExecError? && |th.flushed| <= fault.at)
                                        then Completed else DeleteFailed)
            && (if s'.threads[t].ending == Completed || fault.CommitReplyLost?
                then forall row :: row in s'.table.rows <==> row in s.table.rows && row.id !in th.flushed
                else s'.table == s.table)
  {
    hide AckInv, AckedUpTo, ThreadsOk;
    WithoutKeepsOrder(s.table.rows, Elements(s.threads[t].flushed));
  }

  lemma CancellationDeletesNothing(s: State, t: nat)
    requires t in s.threads && s.threads[t].Posting?
    ensures var s', th := Step(s, CancelFlush(t)), s.threads[t];
            && OnlyMoves(s, s', t) && s'.table == s.table && s'.history == s.history && s'.acks == s.acks
            && s'.threads[t] == Finished(th.base, th.snapshot, th.flushed, Cancelled)
  {
  }
}
